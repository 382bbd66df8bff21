/** Modbus over TCP: whole conversations of a master and a slave, through the frame readers at both ends.
*/
module ModbusTcp {
  import opened Modbus
  import opened ModbusEndToEnd
  import opened ModbusSlave
  import opened ModbusMaster
  import Mbap

  /** A frame: the MBAP header, with the length of what follows its length field, and the PDU. */
  function Adu(tid: word, pid: word, uid: byte, pdu: seq<byte>): (f: seq<byte>)
    requires |pdu| < 65535
    ensures |f| == 7 + |pdu|
  {
    [Hi(tid), Lo(tid), Hi(pid), Lo(pid), Hi(|pdu| + 1), Lo(|pdu| + 1), uid] + pdu
  }

  lemma AduFields(tid: word, pid: word, uid: byte, pdu: seq<byte>, buf: seq<byte>)
    requires |pdu| < 65535 && Adu(tid, pid, uid, pdu) <= buf
    ensures |buf| >= 7 + |pdu| && Mbap.Word(buf[0], buf[1]) == tid && Mbap.Word(buf[2], buf[3]) == pid
    ensures Mbap.LengthField(buf) == |pdu| + 1 && buf[6] == uid && pdu <= buf[7..]
    ensures buf[..4] == [Hi(tid), Lo(tid), Hi(pid), Lo(pid)]
  {
    var f := Adu(tid, pid, uid, pdu);
    assert buf[0] == f[0] && buf[1] == f[1] && buf[2] == f[2] && buf[3] == f[3] && buf[4] == f[4] && buf[5] == f[5] && buf[6] == f[6];
    assert pdu == f[7..];
  }

  /** A reader hands on the frame of a PDU that is neither empty nor too long. */
  lemma AduRun(tid: word, pid: word, uid: byte, pdu: seq<byte>)
    requires 1 <= |pdu| <= MB_PDU_SIZE_MAX
    ensures Mbap.Run(Mbap.Start(), Adu(tid, pid, uid, pdu)).0 == Mbap.Start()
    ensures Mbap.Run(Mbap.Start(), Adu(tid, pid, uid, pdu)).1 == [Adu(tid, pid, uid, pdu)]
  {
    hide Mbap.Run, Mbap.Step, Mbap.IsFrame, Mbap.LengthField, Adu;
    var f := Adu(tid, pid, uid, pdu);
    AduFields(tid, pid, uid, pdu, f);
    IsFrameText(f);
    Mbap.FrameRun(f);
  }

  /** And its callback is told what the sender has put into the header. */
  lemma AduCall(tid: word, pid: word, uid: byte, pdu: seq<byte>)
    requires 1 <= |pdu| <= MB_PDU_SIZE_MAX
    ensures Mbap.CallsOf(Mbap.Run(Mbap.Start(), Adu(tid, pid, uid, pdu)).1)
         == [Mbap.Call(tid, pid, |pdu| + 1, uid, Adu(tid, pid, uid, pdu))]
  {
    hide Mbap.Run, Adu;
    var f := Adu(tid, pid, uid, pdu);
    AduRun(tid, pid, uid, pdu);
    AduFields(tid, pid, uid, pdu, f);
  }

  /** The header of section 3.1.3 of MODBUS Messaging on TCP/IP V1.0b. */
  lemma HeaderExample()
    ensures Adu(0x0102, 0, 0x11, [0x03, 0x00, 0x6B, 0x00, 0x03])
         == [0x01, 0x02, 0x00, 0x00, 0x00, 0x06, 0x11, 0x03, 0x00, 0x6B, 0x00, 0x03]
  {
  }

  lemma IsFrameText(f: seq<byte>)
    ensures Mbap.IsFrame(f) <==> |f| >= 7 && |f| == 6 + Mbap.LengthField(f)
  {
    hide Mbap.LengthField;
  }

  // ---------- the slave ----------

  predicate Received(buf: seq<byte>) { |buf| == Mbap.MB_TCP_PDU_SIZE_MAX && 2 <= Mbap.LengthField(buf) <= 254 }

  /** What a reader hands on. */
  predicate Good(f: seq<byte>) { Mbap.IsFrame(f) && 2 <= Mbap.LengthField(f) <= 254 }

  /** A frame in the buffer of a reader, which keeps older bytes behind it. */
  function Over(f: seq<byte>, junk: seq<byte>): (buf: seq<byte>)
    requires Good(f) && |junk| == Mbap.MB_TCP_PDU_SIZE_MAX
    ensures Received(buf) && f <= buf
  {
    var buf := f + junk[|f|..];
    assert buf[4] == f[4] && buf[5] == f[5];
    buf
  }

  /** What the slave does about a frame in the buffer of its reader: the device afterwards, and what it
      writes to the connection.  It does not answer a broadcast, and ignores frames for others. */
  function TcpAnswer(d: Device, buf: seq<byte>, my: byte): (r: (Device, seq<seq<byte>>))
    requires Received(buf)
  {
    if buf[6] == my || buf[6] == MB_ADDRESS_BROADCAST then
      var o := Respond(d, buf[7..], Mbap.LengthField(buf) - 1);
      (o.0, if buf[6] == MB_ADDRESS_BROADCAST then [] else [buf[..4] + [Hi((|o.1| + 1) % 65536), Lo((|o.1| + 1) % 65536), buf[6]] + o.1])
    else (d, [])
  }

  class TcpSlave {
    const dev: RefDevice
    const myAddress: byte
    var myFrames: nat
    var reqFails: nat
    var written: seq<seq<byte>>       // what went to the connection

    constructor (dev: RefDevice, myAddress: byte)
      ensures this.dev == dev && this.myAddress == myAddress && written == [] && myFrames == reqFails == 0
    {
      this.dev, this.myAddress := dev, myAddress;
      myFrames, reqFails, written := 0, 0, [];
    }

    /** modbus_tcp_slave_handle_rx_frame, on what the reader of the connection holds; the counters are
        of type uint32_t. */
    method HandleRxFrame(frame: array<byte>, length: word, uid: byte)
      requires Received(frame[..]) && length == Mbap.LengthField(frame[..]) && uid == frame[6]
      modifies this, dev, frame
      ensures dev.state == TcpAnswer(old(dev.state), old(frame[..]), myAddress).0
      ensures written == old(written) + TcpAnswer(old(dev.state), old(frame[..]), myAddress).1
      ensures myFrames == if uid == myAddress != MB_ADDRESS_BROADCAST then (old(myFrames) + 1) % 0x1_0000_0000 else old(myFrames)
      ensures reqFails ==
        if uid == myAddress != MB_ADDRESS_BROADCAST && Dispatch(old(dev.state), old(frame[7..]), length - 1).status != 0
        then (old(reqFails) + 1) % 0x1_0000_0000 else old(reqFails)
    {
      hide Respond, Dispatch, Mbap.LengthField, Hi, Lo;
      ghost var req := frame[..];
      assert frame[7..] == req[7..];
      var len := length - 1;
      if uid == myAddress || uid == MB_ADDRESS_BROADCAST {
        var ok, rspLen := RequestRx(dev, frame, 7, len);
        if uid != MB_ADDRESS_BROADCAST {
          myFrames := (myFrames + 1) % 0x1_0000_0000;
          if !ok { reqFails := (reqFails + 1) % 0x1_0000_0000; }
          ghost var rsp := frame[7..7 + rspLen];
          rspLen := (rspLen + 1) % 65536;
          frame[4] := Hi(rspLen);
          frame[5] := Lo(rspLen);
          rspLen := rspLen + 6;
          assert frame[7..rspLen] == rsp && frame[..4] == req[..4];
          assert frame[..rspLen] == frame[..4] + [frame[4], frame[5], frame[6]] + frame[7..rspLen];
          written := written + [frame[..rspLen]];
        }
      }
    }
  }

  /** All frames that come in. */
  function SlaveRx(d: Device, frames: seq<seq<byte>>, junk: seq<byte>, my: byte): (r: (Device, seq<seq<byte>>))
    requires |junk| == Mbap.MB_TCP_PDU_SIZE_MAX
    requires forall i :: 0 <= i < |frames| ==> Good(frames[i])
    decreases |frames|
  {
    if frames == [] then (d, [])
    else
      var a := TcpAnswer(d, Over(frames[0], junk), my);
      var rest := SlaveRx(a.0, frames[1..], junk, my);
      (rest.0, a.1 + rest.1)
  }

  // ---------- the master ----------

  datatype Table = Coils | Discrete | Holding | Input

  /** An invocation of one of the master's callbacks. */
  datatype Notice = Notice(slave: byte, table: Table, write: bool, addr: word, nb: word, values: Values)

  /** modbus_rtu_handler_response_rx */
  function ResponseRx(x: Expect, slave: byte, pdu: seq<byte>, len: nat): seq<Notice>
    requires |pdu| >= MB_PDU_SIZE_MAX
  {
    if !Validate(x, pdu, len) then []
    else
      var table :=
        if x.func == READ_COILS || x.func == WRITE_SINGLE_COIL || x.func == WRITE_MULTIPLE_COILS then Coils
        else if x.func == READ_DISCRETE_INPUTS then Discrete
        else if x.func == READ_INPUT_REGISTER then Input
        else Holding;
      var write := x.func == WRITE_SINGLE_COIL || x.func == WRITE_REGISTER || x.func == WRITE_MULTIPLE_COILS || x.func == WRITE_MULTIPLE_REGISTERS;
      [Notice(slave, table, write, x.addr, x.nb, Delivered(x, pdu))]
  }

  /** modbus_tcp_master_got_frame; `tid` is the number of the next request, and in tid - 1 it is an int. */
  function GotFrame(tid: word, pid: word, x: Expect, buf: seq<byte>): seq<Notice>
    requires Received(buf)
  {
    var t: int, p := tid, pid;
    if t - 1 != Mbap.Word(buf[0], buf[1]) || p != Mbap.Word(buf[2], buf[3]) then []
    else ResponseRx(x, buf[6], buf[7..], Mbap.LengthField(buf) - 1)
  }

  class TcpMaster {
    const ctx: MasterCtx
    var tid: word
    var pid: word
    var connected: bool
    var written: seq<seq<byte>>       // what went to the connection

    constructor ()
      ensures ctx.Ok() && ctx.pduOffset == 7 && tid == 0 && pid == 0 && !connected && written == []
    {
      ctx := new MasterCtx(7);
      tid, pid, connected, written := 0, 0, false, [];
    }

    /** modbus_tcp_master_request; `takes` says whether the stream takes the bytes. */
    method Request(slave: byte, takes: bool)
      requires ctx.Ok() && ctx.pduOffset == 7
      modifies this, ctx.txBuf
      ensures ctx.Ok() && ctx.Pdu() == old(ctx.Pdu()) && pid == old(pid)
      ensures !old(connected) ==> written == old(written) && tid == old(tid)
      ensures old(connected) ==> tid == (old(tid) + 1) % 65536 && connected == takes
      ensures old(connected) ==>
        written == old(written) + if takes then [Adu(old(tid), pid, slave, old(ctx.Pdu()))] else []
    {
      hide Hi, Lo;
      var frameLen := ctx.txNdx + 1 - 7;
      if !connected { return; }
      ghost var pdu := ctx.Pdu();
      var b := ctx.txBuf;
      b[0] := Hi(tid);
      b[1] := Lo(tid);
      b[2] := Hi(pid);
      b[3] := Lo(pid);
      b[4] := Hi(frameLen);
      b[5] := Lo(frameLen);
      b[6] := slave;
      assert b[7..ctx.txNdx] == pdu;
      assert b[..ctx.txNdx] == [b[0], b[1], b[2], b[3], b[4], b[5], b[6]] + b[7..ctx.txNdx];
      if takes { written := written + [b[..ctx.txNdx]]; } else { connected := false; }
      tid := (tid + 1) % 65536;
    }
  }

  /** All frames that come in, one over the other in the buffer of the reader. */
  function MasterRx(tid: word, pid: word, x: Expect, frames: seq<seq<byte>>, junk: seq<byte>): seq<Notice>
    requires |junk| == Mbap.MB_TCP_PDU_SIZE_MAX
    requires forall i :: 0 <= i < |frames| ==> Good(frames[i])
    decreases |frames|
  {
    if frames == [] then []
    else
      var buf := Over(frames[0], junk);
      GotFrame(tid, pid, x, buf) + MasterRx(tid, pid, x, frames[1..], buf)
  }

  // ---------- one transaction ----------

  function TableOf(r: Request): Table
  {
    if r.CoilsRead? || r.CoilWrite? || r.CoilsWrite? then Coils
    else if r.DiscreteRead? then Discrete
    else if r.InputRead? then Input
    else Holding
  }

  function CountOf(r: Request): nat
  {
    match r
    case CoilWrite(_, _) => 1
    case RegisterWrite(_, _) => 1
    case CoilsWrite(_, bits) => |bits|
    case RegistersWrite(_, vs) => |vs|
    case CoilsRead(_, n) => n
    case DiscreteRead(_, n) => n
    case HoldingRead(_, n) => n
    case InputRead(_, n) => n
    case RegistersReadWrite(_, _, _, n) => n
  }

  /** What the application of the master should learn: the slave, the table, the cells and their values. */
  function NoticeOf(slave: byte, d: Device, r: Request): Notice
    requires Encodable(r) && Reaches(d, r)
  {
    Notice(slave, TableOf(r), IsWrite(r), r.addr, CountOf(r), Reported(d, r))
  }

  lemma AfterReaches(d: Device, r: Request)
    requires InRange(r) && Reaches(d, r)
    ensures Reaches(After(d, r), r)
  {
  }

  /** A request that fits a PDU. */
  predicate Fits(r: Request) { Encodable(r) && |Encode(r)| <= MB_PDU_SIZE_MAX }

  /** The response that the slave's handlers give when the request has arrived in the reader's buffer. */
  function Response(d: Device, r: Request, buf: seq<byte>): (rsp: seq<byte>)
    requires Fits(r) && |buf| == Mbap.MB_TCP_PDU_SIZE_MAX
    ensures 1 <= |rsp| <= MB_PDU_SIZE_MAX
  {
    ResponseFits(d, buf[7..], |Encode(r)|);
    Respond(d, buf[7..], |Encode(r)|).1
  }

  lemma AduGood(tid: word, pid: word, uid: byte, pdu: seq<byte>)
    requires 1 <= |pdu| <= MB_PDU_SIZE_MAX
    ensures Good(Adu(tid, pid, uid, pdu))
  {
    hide Adu, Mbap.LengthField;
    var f := Adu(tid, pid, uid, pdu);
    AduFields(tid, pid, uid, pdu, f);
  }

  /** The answer to a frame: the same header but for the length. */
  lemma AnswerIs(d: Device, tid: word, pid: word, slave: byte, pdu: seq<byte>, buf: seq<byte>)
    requires 1 <= |pdu| <= MB_PDU_SIZE_MAX && Received(buf) && Adu(tid, pid, slave, pdu) <= buf && slave != MB_ADDRESS_BROADCAST
    ensures TcpAnswer(d, buf, slave).0 == Respond(d, buf[7..], |pdu|).0
    ensures |Respond(d, buf[7..], |pdu|).1| <= MB_PDU_SIZE_MAX
    ensures TcpAnswer(d, buf, slave).1 == [Adu(tid, pid, slave, Respond(d, buf[7..], |pdu|).1)]
  {
    hide Respond, Mbap.LengthField, Hi, Lo;
    AduFields(tid, pid, slave, pdu, buf);
    ResponseFits(d, buf[7..], |pdu|);
    var rsp := Respond(d, buf[7..], |pdu|).1;
    assert buf[..4] + [Hi(|rsp| + 1), Lo(|rsp| + 1), slave] + rsp == Adu(tid, pid, slave, rsp);
  }

  /** The slave answers the request with a frame for the same transaction. */
  lemma SlaveAnswers(d: Device, tid: word, pid: word, slave: byte, r: Request, buf: seq<byte>)
    requires Fits(r) && slave != MB_ADDRESS_BROADCAST && Received(buf) && Adu(tid, pid, slave, Encode(r)) <= buf
    ensures TcpAnswer(d, buf, slave).0 == After(d, r)
    ensures TcpAnswer(d, buf, slave).1 == [Adu(tid, pid, slave, Response(d, r, buf))]
  {
    hide Encode, Respond, After, TcpAnswer, Adu, Hi, Lo, Mbap.LengthField, Mbap.Word;
    AduFields(tid, pid, slave, Encode(r), buf);
    DeviceAfter(d, r, buf[7..]);
    AnswerIs(d, tid, pid, slave, Encode(r), buf);
  }

  lemma OnlyOne(d: Device, f: seq<byte>, junk: seq<byte>, my: byte)
    requires Good(f) && |junk| == Mbap.MB_TCP_PDU_SIZE_MAX
    ensures SlaveRx(d, [f], junk, my).0 == TcpAnswer(d, Over(f, junk), my).0
    ensures SlaveRx(d, [f], junk, my).1 == TcpAnswer(d, Over(f, junk), my).1
  {
    hide TcpAnswer, Over, Good;
    var a := TcpAnswer(d, Over(f, junk), my);
    assert [f][1..] == [] && a.1 + [] == a.1;
  }

  /** The master reports what it should, once, or nothing. */
  lemma NoticeRight(d: Device, r: Request, o: (Device, seq<byte>), back: seq<byte>, stale: word, slave: byte)
    requires Encodable(r) && |back| >= MB_PDU_SIZE_MAX && Handled(d, r, o, back, stale) && o.1 <= back
    ensures InRange(r) && Reaches(d, r) ==> Reaches(After(d, r), r)
    ensures InRange(r) && Reaches(d, r) ==> ResponseRx(Expected(r, stale), slave, back, |o.1|) == [NoticeOf(slave, After(d, r), r)]
    ensures !(InRange(r) && Reaches(d, r)) ==> ResponseRx(Expected(r, stale), slave, back, |o.1|) == []
  {
    hide Validate, Delivered, After, Reaches, Reported, InRange;
    if InRange(r) && Reaches(d, r) { AfterReaches(d, r); }
  }

  /** The number of the next request. */
  function Next(tid: word): word { (tid + 1) % 65536 }

  predicate Answered(d: Device, r: Request, tid: word) { InRange(r) && Reaches(d, r) && tid != 65535 }

  /** What the application of the master should learn from a transaction. */
  function Notices(d: Device, r: Request, tid: word, slave: byte): seq<Notice>
    requires Encodable(r)
  {
    if Answered(d, r, tid) then
      AfterReaches(d, r);
      [NoticeOf(slave, After(d, r), r)]
    else []
  }

  /** The master takes the answer for the one to its request, unless the number of the request was
      65535. */
  lemma MasterAccepts(d: Device, tid: word, pid: word, slave: byte, r: Request, stale: word, buf: seq<byte>, back: seq<byte>)
    requires Fits(r) && Received(buf) && Adu(tid, pid, slave, Encode(r)) <= buf
    requires Received(back) && Adu(tid, pid, slave, Response(d, r, buf)) <= back
    ensures GotFrame(Next(tid), pid, Expected(r, stale), back) == Notices(d, r, tid, slave)
  {
    hide Encode, Respond, Handled, After, Mbap.LengthField, Hi, Lo, Adu, ResponseRx, Reaches, InRange, Expected, NoticeOf;
    AduFields(tid, pid, slave, Encode(r), buf);
    AduFields(tid, pid, slave, Response(d, r, buf), back);
    EndToEnd(d, r, buf[7..], back[7..], stale);
    NoticeRight(d, r, Respond(d, buf[7..], |Encode(r)|), back[7..], stale, slave);
  }

  // ---------- frames of other transactions ----------

  /** The frame does not belong to transaction `tid` of this master. */
  predicate Foreign(f: seq<byte>, tid: word, pid: word)
    requires |f| >= 7
  {
    Mbap.Word(f[0], f[1]) != tid || Mbap.Word(f[2], f[3]) != pid
  }

  lemma ForeignIgnored(tid: word, pid: word, x: Expect, back: seq<byte>)
    requires Received(back) && Foreign(back, tid, pid)
    ensures GotFrame(Next(tid), pid, x, back) == []
  {
    hide ResponseRx, Mbap.LengthField, Mbap.Word;
  }

  /** A late or stray frame is dropped, whatever it says. */
  lemma StrayDropped(tid: word, tid': word, pid: word, pid': word, uid: byte, pdu: seq<byte>, x: Expect, back: seq<byte>)
    requires |pdu| < 65535 && Received(back) && Adu(tid', pid', uid, pdu) <= back
    requires tid' != tid || pid' != pid
    ensures GotFrame(Next(tid), pid, x, back) == []
  {
    hide Adu, Mbap.LengthField, Mbap.Word, GotFrame, Next;
    AduFields(tid', pid', uid, pdu, back);
    ForeignIgnored(tid, pid, x, back);
  }

  lemma ForeignDropped(tid: word, pid: word, x: Expect, f: seq<byte>, junk: seq<byte>)
    requires Good(f) && Foreign(f, tid, pid) && |junk| == Mbap.MB_TCP_PDU_SIZE_MAX
    ensures GotFrame(Next(tid), pid, x, Over(f, junk)) == []
  {
    hide Mbap.LengthField, Mbap.Word, GotFrame, Next;
    var buf := Over(f, junk);
    assert buf[0] == f[0] && buf[1] == f[1] && buf[2] == f[2] && buf[3] == f[3];
    ForeignIgnored(tid, pid, x, buf);
  }

  /** So are any number of them. */
  lemma {:induction false} AllDropped(tid: word, pid: word, x: Expect, frames: seq<seq<byte>>, junk: seq<byte>)
    requires |junk| == Mbap.MB_TCP_PDU_SIZE_MAX
    requires forall i :: 0 <= i < |frames| ==> Good(frames[i]) && Foreign(frames[i], tid, pid)
    ensures MasterRx(Next(tid), pid, x, frames, junk) == []
    decreases |frames|
  {
    hide GotFrame, Good, Foreign, Over, Next;
    if frames != [] {
      ForeignDropped(tid, pid, x, frames[0], junk);
      AllDropped(tid, pid, x, frames[1..], Over(frames[0], junk));
    }
  }

  /** What `frames` leave in the buffer. */
  function Buffered(frames: seq<seq<byte>>, junk: seq<byte>): (buf: seq<byte>)
    requires |junk| == Mbap.MB_TCP_PDU_SIZE_MAX
    requires forall i :: 0 <= i < |frames| ==> Good(frames[i])
    ensures |buf| == Mbap.MB_TCP_PDU_SIZE_MAX
    decreases |frames|
  {
    if frames == [] then junk else Buffered(frames[1..], Over(frames[0], junk))
  }

  lemma {:induction false} RxAppend(tid: word, pid: word, x: Expect, a: seq<seq<byte>>, b: seq<seq<byte>>, junk: seq<byte>)
    requires |junk| == Mbap.MB_TCP_PDU_SIZE_MAX
    requires forall i :: 0 <= i < |a| ==> Good(a[i])
    requires forall i :: 0 <= i < |b| ==> Good(b[i])
    ensures MasterRx(tid, pid, x, a + b, junk) == MasterRx(tid, pid, x, a, junk) + MasterRx(tid, pid, x, b, Buffered(a, junk))
    decreases |a|
  {
    hide GotFrame, Good, Over;
    if a == [] {
      assert a + b == b;
    } else {
      var buf := Over(a[0], junk);
      assert (a + b)[1..] == a[1..] + b;
      RxAppend(tid, pid, x, a[1..], b, buf);
      Together(GotFrame(tid, pid, x, buf), MasterRx(tid, pid, x, a[1..], buf), MasterRx(tid, pid, x, b, Buffered(a, junk)));
    }
  }

  lemma Together(a: seq<Notice>, b: seq<Notice>, c: seq<Notice>)
    ensures a + (b + c) == (a + b) + c
  {
  }

  lemma OneReceived(tid: word, pid: word, x: Expect, f: seq<byte>, junk: seq<byte>)
    requires Good(f) && |junk| == Mbap.MB_TCP_PDU_SIZE_MAX
    ensures MasterRx(tid, pid, x, [f], junk) == GotFrame(tid, pid, x, Over(f, junk))
  {
    hide GotFrame, Over, Good;
  }

  /** Among frames of other transactions only the answer counts. */
  lemma OnlyAnswerCounts(tid: word, pid: word, x: Expect, before: seq<seq<byte>>, answer: seq<seq<byte>>, after: seq<seq<byte>>, junk: seq<byte>)
    requires |junk| == Mbap.MB_TCP_PDU_SIZE_MAX
    requires forall i :: 0 <= i < |before| ==> Good(before[i]) && Foreign(before[i], tid, pid)
    requires forall i :: 0 <= i < |after| ==> Good(after[i]) && Foreign(after[i], tid, pid)
    requires forall i :: 0 <= i < |answer| ==> Good(answer[i])
    ensures MasterRx(Next(tid), pid, x, (before + answer) + after, junk)
         == MasterRx(Next(tid), pid, x, answer, Buffered(before, junk))
  {
    hide GotFrame, Good, Foreign, Over, Next, MasterRx, Buffered;
    RxAppend(Next(tid), pid, x, before + answer, after, junk);
    RxAppend(Next(tid), pid, x, before, answer, junk);
    AllDropped(tid, pid, x, before, junk);
    AllDropped(tid, pid, x, after, Buffered(before + answer, junk));
  }

  // ---------- whole conversations ----------

  /** The master's numbers, the slave's device, and the readers at both ends. */
  datatype Session = Session(tid: word, value: word, device: Device, slaveReader: Mbap.State, masterReader: Mbap.State)

  /** A request to a unit, what is in the buffers of the two readers from before, and the frames of other transactions
      that reach the master before and after the answer. */
  datatype Round = Round(request: Request, unit: byte, junk: seq<byte>, junk': seq<byte>, before: seq<seq<byte>>, after: seq<seq<byte>>)

  predicate Playable(rd: Round, tid: word, pid: word)
  {
    && Fits(rd.request) && |rd.junk| == |rd.junk'| == Mbap.MB_TCP_PDU_SIZE_MAX
    && (forall i :: 0 <= i < |rd.before| ==> Good(rd.before[i]) && Foreign(rd.before[i], tid, pid))
    && (forall i :: 0 <= i < |rd.after| ==> Good(rd.after[i]) && Foreign(rd.after[i], tid, pid))
  }

  /** The first round has number `tid`, the next the next. */
  predicate AllPlayable(rds: seq<Round>, tid: word, pid: word)
    decreases |rds|
  {
    rds == [] || (Playable(rds[0], tid, pid) && AllPlayable(rds[1..], Next(tid), pid))
  }

  predicate Readers(s: Session) { Mbap.Legal(s.slaveReader) && Mbap.Legal(s.masterReader) }

  /** What a reader makes of bytes. */
  function Read(s: Mbap.State, bytes: seq<byte>): (r: (Mbap.State, seq<seq<byte>>))
    requires Mbap.Legal(s)
    ensures Mbap.Legal(r.0) && forall i :: 0 <= i < |r.1| ==> Good(r.1[i])
  {
    Mbap.OnlyFrames(s, bytes);
    Mbap.Run(s, bytes)
  }

  /** The request goes out, the slave `my` handles what its reader hands on, the master what its own does. */
  function Transact(s: Session, pid: word, my: byte, rd: Round): (r: (Session, seq<Notice>))
    requires Readers(s) && Playable(rd, s.tid, pid)
    ensures Readers(r.0) && r.0.tid == Next(s.tid)
  {
    var x := Expected(rd.request, s.value);
    var up := Read(s.slaveReader, Adu(s.tid, pid, rd.unit, Encode(rd.request)));
    var answer := SlaveRx(s.device, up.1, rd.junk, my);
    var down := Read(s.masterReader, Mbap.Concat((rd.before + answer.1) + rd.after));
    (Session(Next(s.tid), x.value, answer.0, up.0, down.0), MasterRx(Next(s.tid), pid, x, down.1, rd.junk'))
  }

  function Converse(s: Session, pid: word, my: byte, rds: seq<Round>): (r: (Device, seq<Notice>))
    requires Readers(s) && AllPlayable(rds, s.tid, pid)
    decreases |rds|
  {
    if rds == [] then (s.device, [])
    else
      var one := Transact(s, pid, my, rds[0]);
      var rest := Converse(one.0, pid, my, rds[1..]);
      (rest.0, one.1 + rest.1)
  }

  /** What the application of the master should learn of it: requests for everybody are not answered. */
  function ToldOf(d: Device, unit: byte, my: byte, r: Request, tid: word): seq<Notice>
    requires Encodable(r)
  {
    if unit == my && unit != 0 then Notices(d, r, tid, unit) else []
  }

  /** The same as it looks from the application: no frames, no buffers, only the device. */
  function Ideal(tid: word, my: byte, d: Device, rds: seq<Round>): (r: (Device, seq<Notice>))
    requires forall i :: 0 <= i < |rds| ==> Encodable(rds[i].request)
    decreases |rds|
  {
    if rds == [] then (d, [])
    else
      var r, unit := rds[0].request, rds[0].unit;
      var rest := Ideal(Next(tid), my, DeviceFor(d, unit, my, r), rds[1..]);
      (rest.0, ToldOf(d, unit, my, r, tid) + rest.1)
  }

  lemma ReadAdu(tid: word, pid: word, uid: byte, pdu: seq<byte>)
    requires 1 <= |pdu| <= MB_PDU_SIZE_MAX
    ensures Mbap.Legal(Mbap.Start())
    ensures Read(Mbap.Start(), Adu(tid, pid, uid, pdu)).0 == Mbap.Start()
    ensures Read(Mbap.Start(), Adu(tid, pid, uid, pdu)).1 == [Adu(tid, pid, uid, pdu)]
  {
    hide Mbap.Run, Adu;
    AduRun(tid, pid, uid, pdu);
  }

  lemma ReadAll(fs: seq<seq<byte>>)
    requires forall i :: 0 <= i < |fs| ==> Good(fs[i])
    ensures Mbap.Legal(Mbap.Start())
    ensures Read(Mbap.Start(), Mbap.Concat(fs)).0 == Mbap.Start() && Read(Mbap.Start(), Mbap.Concat(fs)).1 == fs
  {
    hide Mbap.Run, Mbap.Concat, Mbap.LengthField, Mbap.IsFrame;
    Mbap.StreamRun(fs);
  }

  /** What the slave does about a request to any unit: the answer, if there is one, is a frame of the same
      transaction. */
  lemma SlaveHears(d: Device, tid: word, pid: word, unit: byte, my: byte, r: Request, buf: seq<byte>)
    requires Fits(r) && Received(buf) && Adu(tid, pid, unit, Encode(r)) <= buf
    ensures TcpAnswer(d, buf, my).0 == DeviceFor(d, unit, my, r)
    ensures TcpAnswer(d, buf, my).1 == if unit == my && unit != 0 then [Adu(tid, pid, unit, Response(d, r, buf))] else []
  {
    hide Encode, After, Adu, Respond, Hi, Lo, Mbap.LengthField, Mbap.Word, Response;
    AduFields(tid, pid, unit, Encode(r), buf);
    if unit == my && unit != 0 {
      SlaveAnswers(d, tid, pid, unit, r, buf);
    } else {
      DeviceAfter(d, r, buf[7..]);
    }
  }

  /** One transaction: the readers are ready for the next, the device is as it should be, and the
      application is told what it should. */
  lemma TransactIs(s: Session, pid: word, my: byte, rd: Round)
    requires s.slaveReader == s.masterReader == Mbap.Start() && Playable(rd, s.tid, pid)
    ensures Readers(s)
    ensures Transact(s, pid, my, rd).0 ==
      Session(Next(s.tid), Expected(rd.request, s.value).value, DeviceFor(s.device, rd.unit, my, rd.request), Mbap.Start(), Mbap.Start())
    ensures Transact(s, pid, my, rd).1 == ToldOf(s.device, rd.unit, my, rd.request, s.tid)
  {
    hide Encode, Adu, Read, SlaveRx, MasterRx, Buffered, After, DeviceFor, Notices, Expected, TcpAnswer, GotFrame, Good, Foreign;
    hide Over, Response, Next, Mbap.Concat, Mbap.LengthField;
    var r, tid, unit := rd.request, s.tid, rd.unit;
    var q := Adu(tid, pid, unit, Encode(r));
    ReadAdu(tid, pid, unit, Encode(r));
    AduGood(tid, pid, unit, Encode(r));
    var buf := Over(q, rd.junk);
    OnlyOne(s.device, q, rd.junk, my);
    SlaveHears(s.device, tid, pid, unit, my, r, buf);
    var answer := SlaveRx(s.device, [q], rd.junk, my).1;
    AnswerTold(s, pid, my, rd, buf, answer);
  }

  /** The master's half of it. */
  lemma AnswerTold(s: Session, pid: word, my: byte, rd: Round, buf: seq<byte>, answer: seq<seq<byte>>)
    requires Playable(rd, s.tid, pid) && Received(buf) && Adu(s.tid, pid, rd.unit, Encode(rd.request)) <= buf
    requires answer ==
      if rd.unit == my && rd.unit != 0 then [Adu(s.tid, pid, rd.unit, Response(s.device, rd.request, buf))] else []
    ensures Mbap.Legal(Mbap.Start())
    ensures var down := Read(Mbap.Start(), Mbap.Concat((rd.before + answer) + rd.after));
      && down.0 == Mbap.Start()
      && MasterRx(Next(s.tid), pid, Expected(rd.request, s.value), down.1, rd.junk') == ToldOf(s.device, rd.unit, my, rd.request, s.tid)
  {
    hide Encode, Adu, Read, MasterRx, Buffered, Notices, Expected, GotFrame, Good, Foreign, Over, Response, Next;
    hide Mbap.Concat, Mbap.LengthField;
    var r, x := rd.request, Expected(rd.request, s.value);
    var junk := Buffered(rd.before, rd.junk');
    if rd.unit == my && rd.unit != 0 {
      var rsp := Response(s.device, r, buf);
      var g := Adu(s.tid, pid, rd.unit, rsp);
      AduGood(s.tid, pid, rd.unit, rsp);
      OneReceived(Next(s.tid), pid, x, g, junk);
      MasterAccepts(s.device, s.tid, pid, rd.unit, r, s.value, buf, Over(g, junk));
    } else {
      NothingReceived(Next(s.tid), pid, x, junk);
    }
    ReadAll((rd.before + answer) + rd.after);
    OnlyAnswerCounts(s.tid, pid, x, rd.before, answer, rd.after, rd.junk');
  }

  lemma NothingReceived(tid: word, pid: word, x: Expect, junk: seq<byte>)
    requires |junk| == Mbap.MB_TCP_PDU_SIZE_MAX
    ensures MasterRx(tid, pid, x, [], junk) == []
  {
  }

  lemma {:induction false} PlayableFits(rds: seq<Round>, tid: word, pid: word)
    requires AllPlayable(rds, tid, pid)
    ensures forall i :: 0 <= i < |rds| ==> Encodable(rds[i].request)
    decreases |rds|
  {
    hide Next;
    if rds != [] {
      PlayableFits(rds[1..], Next(tid), pid);
      assert forall i :: 0 < i < |rds| ==> rds[i] == rds[1..][i - 1];
    }
  }

  /** However long the conversation, to whatever units, with whatever frames of other transactions in between: what
      happens is what should happen.  Of every 65536 requests the master misses the answer to the one with number
      65535. */
  lemma {:induction false} ConversationIsIdeal(s: Session, pid: word, my: byte, rds: seq<Round>)
    requires s.slaveReader == s.masterReader == Mbap.Start() && AllPlayable(rds, s.tid, pid)
    ensures Readers(s) && forall i :: 0 <= i < |rds| ==> Encodable(rds[i].request)
    ensures Converse(s, pid, my, rds).0 == Ideal(s.tid, my, s.device, rds).0
    ensures Converse(s, pid, my, rds).1 == Ideal(s.tid, my, s.device, rds).1
    decreases |rds|
  {
    hide Transact, DeviceFor, ToldOf, Next, Playable, Expected;
    PlayableFits(rds, s.tid, pid);
    if rds != [] {
      TransactIs(s, pid, my, rds[0]);
      ConversationIsIdeal(Transact(s, pid, my, rds[0]).0, pid, my, rds[1..]);
    }
  }

  /** The answer to a request that the slave carries out gets lost exactly when the number of the request
      is 65535. */
  lemma AnswerLostIff(s: Session, pid: word, my: byte, rd: Round)
    requires s.slaveReader == s.masterReader == Mbap.Start() && Playable(rd, s.tid, pid) && rd.unit == my != MB_ADDRESS_BROADCAST
    requires InRange(rd.request) && Reaches(s.device, rd.request)
    ensures Readers(s) && (Transact(s, pid, my, rd).1 == [] <==> s.tid == 65535)
  {
    hide Transact, After, InRange, Reaches, Next, Expected;
    TransactIs(s, pid, my, rd);
  }

  lemma NoticesAt(d: Device, r: Request, tid: word, slave: byte)
    requires Encodable(r) && InRange(r) && Reaches(d, r)
    ensures tid == 65535 ==> Notices(d, r, tid, slave) == []
    ensures tid != 65535 ==> Reaches(After(d, r), r) && Notices(d, r, tid, slave) == [NoticeOf(slave, After(d, r), r)]
  {
    hide NoticeOf, After, Reaches, InRange;
    AfterReaches(d, r);
  }

  /** One coil is read, with request number 0 and with number 65535. */
  lemma LostAnswerExample() returns (s: Session, rd: Round)
    ensures Readers(s) && Playable(rd, 0, 0) && Playable(rd, 65535, 0) && s.tid == 0
    ensures Transact(s, 0, 1, rd).1 == [Notice(1, Coils, false, 0, 1, BitValues([true]))]
    ensures Transact(s.(tid := 65535), 0, 1, rd).1 == []
  {
    hide Transact, Encode, Mbap.Legal, Notices;
    var junk := seq(Mbap.MB_TCP_PDU_SIZE_MAX, _ => 0);
    var r := CoilsRead(0, 1);
    rd := Round(r, 1, junk, junk, [], []);
    s := Session(0, 0, Device([true], [], [], [], ENOERR), Mbap.Start(), Mbap.Start());
    InRangeShort(r);
    TransactIs(s, 0, 1, rd);
    TransactIs(s.(tid := 65535), 0, 1, rd);
    NoticesAt(s.device, r, 0, 1);
    NoticesAt(s.device, r, 65535, 1);
    assert s.device.coils[0..1] == [true];
  }
}

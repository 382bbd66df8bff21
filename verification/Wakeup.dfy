/** Cross-thread wake-up of an event loop and the task message queue that rides on it.

  Any number of sender threads run `task_notify`, `ev_async_send` or `ev_feed_signal`
  against one loop thread that runs the wait section of `ev_run`, the pipe callback `pipecb`
  and the queue callback `task_queue_noti_callback`.  Every shared read or write is one atomic
  step; the memory fences of the C code are read as sequential consistency.  A callback that
  notifies its own loop is the special case of a sender that runs while the loop stands still.
*/
module Wakeup {

  // ---------- state ----------

  /** The two "something happened" flags that share one wake-up pipe. */
  datatype Channel = Sig | Async

  /** One watcher's own flag: `signals[slot].pending` or `asyncs[slot]->sent`. */
  datatype Target = Target(ch: Channel, slot: nat)

  datatype Config = Config(nSig: nat, nAsync: nat, noti: nat, eventfd: bool, capacity: nat)
  {
    ghost predicate Valid() { noti < nAsync && 1 <= capacity }

    function Size(ch: Channel): nat { if ch == Sig then nSig else nAsync }

    /** The async watcher that announces the task queue. */
    function Noti(): Target { Target(Async, noti) }
  }

  type Thread = nat
  type Msg = nat

  /** What a sender thread is asked to do. */
  datatype Job = Notify(msg: Msg) | Raise(target: Target)

  datatype SenderPc =
    | Idle
    | AwaitLock(msg: Msg)    // task_queue_add, before the mutex
    | Append(msg: Msg)       // list_add_tail
    | Count                  // num_msgs += 1
    | Unlock
    | SetSlot(target: Target)
    | TestFlag(ch: Channel)
    | SetFlag(ch: Channel)
    | SetSkipped
    | TestWanted
    | ClearSkipped
    | WritePipe

  datatype LoopPc =
    | SetWanted
    | TestSkipped
    | Poll(block: bool)
    | ClearWanted
    | CheckSkipped
    | InvokePipe
    | ReadPipe
    | ResetSkipped
    | TestPending(ch: Channel)
    | ClearPending(ch: Channel)
    | Scan(ch: Channel, i: nat)       // slots i, i+1, ... are done
    | ResetSlot(ch: Channel, i: nat)
    | Feed(ch: Channel, i: nat)
    | Dispatch
    | DrainLock
    | DrainCut
    | DrainCount
    | DrainUnlock
    | DrainRun

  /** The shared wake-up words: `flags` are sig_pending and async_pending, `wanted` and `skipped`
      are pipe_write_wanted and pipe_write_skipped, `pipe` counts bytes or is the eventfd counter. */
  datatype Wake = Wake(flags: set<Channel>, slots: set<Target>, wanted: bool, skipped: bool, pipe: nat)

  /** Events of the loop thread: what is fed to pipe_w, and watchers fed by pipecb but not yet called. */
  datatype Local = Local(evRead: bool, evCustom: bool, fed: set<Target>)

  datatype Mutex = Free | HeldBySender(t: Thread) | HeldByLoop

  /** task_q and the callback's private list, with two histories: every message in the order
      in which it was queued, and every handler call. */
  datatype Post = Post(mutex: Mutex, queue: seq<Msg>, numMsgs: nat, batch: seq<Msg>,
                       accepted: seq<Msg>, executed: seq<Msg>)

  /** Threads not listed in `senders` are idle. */
  datatype State = State(cfg: Config, senders: map<Thread, SenderPc>, loop: LoopPc,
                         wake: Wake, local: Local, post: Post)
  {
    function Pc(t: Thread): SenderPc { if t in senders then senders[t] else Idle }
  }

  const UINT32: nat := 0x1_0000_0000

  /** A number as it is kept in a uint32_t. */
  function Mod32(n: nat): nat { n % UINT32 }

  lemma Mod32Small(n: nat)
    ensures Mod32(n) < UINT32 && Mod32(Mod32(n)) == Mod32(n)
  {
  }

  lemma Mod32Add(n: nat)
    ensures Mod32(n + 1) == if Mod32(n) + 1 == UINT32 then 0 else Mod32(n) + 1
  {
    var a, r := n / UINT32, n % UINT32;
    assert n + 1 == a * UINT32 + (r + 1);
  }

  lemma Mod32Next(n: nat, q: nat)
    ensures Mod32(Mod32(n)) == Mod32(n)
    ensures Mod32(n) == Mod32(q) ==> Mod32(n + 1) == Mod32(q + 1)
  {
    hide Mod32;
    Mod32Small(n);
    Mod32Add(n);
    Mod32Add(q);
  }

  function Init(cfg: Config): State
  {
    State(cfg, map[], SetWanted, Wake({}, {}, false, false, 0), Local(false, false, {}),
          Post(Free, [], 0, [], [], []))
  }

  // ---------- sender steps ----------

  ghost predicate SenderEnabled(s: State, t: Thread, job: Job)
  {
    && (s.Pc(t).Idle? && job.Raise? ==> job.target.slot < s.cfg.Size(job.target.ch))
    && (s.Pc(t).AwaitLock? ==> s.post.mutex == Free)
  }

  /** Where a sender goes next; `job` matters only when the thread is idle. */
  function SenderPcNext(cfg: Config, w: Wake, pc: SenderPc, job: Job): SenderPc
  {
    match pc
    case Idle => (match job case Notify(m) => AwaitLock(m) case Raise(target) => SetSlot(target))
    case AwaitLock(m) => Append(m)
    case Append(m) => Count
    case Count => Unlock
    case Unlock => SetSlot(cfg.Noti())
    case SetSlot(target) => TestFlag(target.ch)
    case TestFlag(ch) => if ch in w.flags then Idle else SetFlag(ch)
    case SetFlag(ch) => SetSkipped
    case SetSkipped => TestWanted
    case TestWanted => if w.wanted then ClearSkipped else Idle
    case ClearSkipped => WritePipe
    case WritePipe => Idle
  }

  function Written(cfg: Config, pipe: nat): nat
  {
    if cfg.eventfd || pipe < cfg.capacity then pipe + 1 else pipe
  }

  function SenderWake(cfg: Config, w: Wake, pc: SenderPc): Wake
  {
    match pc
    case SetSlot(target) => w.(slots := w.slots + {target})
    case SetFlag(ch) => w.(flags := w.flags + {ch})
    case SetSkipped => w.(skipped := true)
    case ClearSkipped => w.(skipped := false)
    case WritePipe => w.(pipe := Written(cfg, w.pipe))
    case _ => w
  }

  function SenderPost(p: Post, t: Thread, pc: SenderPc): Post
  {
    match pc
    case AwaitLock(_) => p.(mutex := HeldBySender(t))
    case Append(m) => p.(queue := p.queue + [m], accepted := p.accepted + [m])
    case Count => p.(numMsgs := Mod32(p.numMsgs + 1))
    case Unlock => p.(mutex := Free)
    case _ => p
  }

  function SenderStep(s: State, t: Thread, job: Job): State
  {
    var pc := s.Pc(t);
    State(s.cfg, s.senders[t := SenderPcNext(s.cfg, s.wake, pc, job)], s.loop,
          SenderWake(s.cfg, s.wake, pc), s.local, SenderPost(s.post, t, pc))
  }

  // ---------- loop steps ----------

  /** What the loop's environment decides: a reason not to block (EVRUN_NOWAIT, idle watchers,
      no active watchers), an unrelated event or a timeout in the poll, and which fed watcher is next. */
  datatype Choice = Choice(nowait: bool, other: bool, pick: Target)

  ghost predicate LoopEnabled(s: State, c: Choice)
  {
    && (s.loop == Poll(true) ==> 0 < s.wake.pipe || c.other)
    && (s.loop.Dispatch? && s.local.fed != {} ==> c.pick in s.local.fed)
    && (s.loop.DrainLock? ==> s.post.mutex == Free)
  }

  /** Where pipecb continues once a channel has been looked after. */
  function AfterChannel(ch: Channel): LoopPc { if ch == Sig then TestPending(Async) else Dispatch }

  function LoopPcNext(s: State, c: Choice): LoopPc
  {
    match s.loop
    case SetWanted => TestSkipped
    case TestSkipped => Poll(!(c.nowait || s.wake.skipped))
    case Poll(_) => ClearWanted
    case ClearWanted => CheckSkipped
    case CheckSkipped => InvokePipe
    case InvokePipe => if s.local.evRead then ReadPipe else if s.local.evCustom then ResetSkipped else Dispatch
    case ReadPipe => ResetSkipped
    case ResetSkipped => TestPending(Sig)
    case TestPending(ch) => if ch in s.wake.flags then ClearPending(ch) else AfterChannel(ch)
    case ClearPending(ch) => Scan(ch, s.cfg.Size(ch))
    case Scan(ch, i) =>
      if i == 0 then AfterChannel(ch)
      else if Target(ch, i - 1) in s.wake.slots then ResetSlot(ch, i - 1)
      else Scan(ch, i - 1)
    case ResetSlot(ch, i) => Feed(ch, i)
    case Feed(ch, i) => Scan(ch, i)
    case Dispatch => if s.local.fed == {} then SetWanted else if c.pick == s.cfg.Noti() then DrainLock else Dispatch
    case DrainLock => DrainCut
    case DrainCut => DrainCount
    case DrainCount => DrainUnlock
    case DrainUnlock => DrainRun
    case DrainRun => if s.post.batch == [] then Dispatch else DrainRun
  }

  /** read() takes the whole eventfd counter, or at most four bytes of the pipe. */
  function ReadFrom(cfg: Config, pipe: nat): nat
  {
    if cfg.eventfd || pipe <= 4 then 0 else pipe - 4
  }

  function LoopWake(cfg: Config, w: Wake, pc: LoopPc): Wake
  {
    match pc
    case SetWanted => w.(wanted := true)
    case ClearWanted => w.(wanted := false)
    case ReadPipe => w.(pipe := ReadFrom(cfg, w.pipe))
    case ResetSkipped => w.(skipped := false)
    case ClearPending(ch) => w.(flags := w.flags - {ch})
    case ResetSlot(ch, i) => w.(slots := w.slots - {Target(ch, i)})
    case _ => w
  }

  function LoopLocal(l: Local, w: Wake, pc: LoopPc, pick: Target): Local
  {
    match pc
    case Poll(_) => l.(evRead := 0 < w.pipe, evCustom := false)
    case CheckSkipped => l.(evCustom := w.skipped)
    case Feed(ch, i) => l.(fed := l.fed + {Target(ch, i)})
    case Dispatch => l.(fed := l.fed - {pick})
    case _ => l
  }

  function LoopPost(p: Post, pc: LoopPc): Post
  {
    match pc
    case DrainLock => p.(mutex := HeldByLoop)
    case DrainCut => p.(batch := p.queue, queue := [])
    case DrainCount => p.(numMsgs := 0)
    case DrainUnlock => p.(mutex := Free)
    case DrainRun => if p.batch == [] then p else p.(executed := p.executed + [p.batch[0]], batch := p.batch[1..])
    case _ => p
  }

  function LoopStep(s: State, c: Choice): State
  {
    State(s.cfg, s.senders, LoopPcNext(s, c), LoopWake(s.cfg, s.wake, s.loop),
          LoopLocal(s.local, s.wake, s.loop, c.pick), LoopPost(s.post, s.loop))
  }

  // ---------- runs ----------

  datatype Step = BySender(t: Thread, job: Job) | ByLoop(choice: Choice)

  ghost predicate Enabled(s: State, step: Step)
  {
    match step
    case BySender(t, job) => SenderEnabled(s, t, job)
    case ByLoop(c) => LoopEnabled(s, c)
  }

  function Next(s: State, step: Step): State
  {
    match step
    case BySender(t, job) => SenderStep(s, t, job)
    case ByLoop(c) => LoopStep(s, c)
  }

  /** A run: every step of the interleaving was enabled when it was taken. */
  ghost predicate IsRun(s: State, steps: seq<Step>)
    decreases |steps|
  {
    steps == [] || (Enabled(s, steps[0]) && IsRun(Next(s, steps[0]), steps[1..]))
  }

  function After(s: State, steps: seq<Step>): State
    decreases |steps|
  {
    if steps == [] then s else After(Next(s, steps[0]), steps[1..])
  }

  // ---------- the invariant ----------

  /** The loop is inside pipecb and has yet to look at the flag of channel `ch`. */
  predicate WillTest(pc: LoopPc, ch: Channel)
  {
    match pc
    case ResetSkipped => true
    case TestPending(c) => c == Sig || ch == Async
    case ClearPending(c) => c == Sig || ch == Async
    case Scan(c, _) => c == Sig && ch == Async
    case ResetSlot(c, _) => c == Sig && ch == Async
    case Feed(c, _) => c == Sig && ch == Async
    case _ => false
  }

  /** The scan of pipecb has yet to reach the slot of `g`. */
  predicate WillScan(pc: LoopPc, g: Target)
  {
    match pc
    case Scan(c, i) => c == g.ch && g.slot < i
    case ResetSlot(c, i) => c == g.ch && g.slot <= i
    case Feed(c, i) => c == g.ch && g.slot < i
    case _ => false
  }

  /** The sender will yet raise `skipped` or write the pipe, whatever it reads. */
  predicate Waking(pc: SenderPc) { pc.SetSkipped? || pc.ClearSkipped? || pc.WritePipe? }

  /** The sender is between raising `skipped` and taking it back. */
  predicate Retracting(pc: SenderPc) { pc.TestWanted? || pc.ClearSkipped? }

  /** The sender has set a slot of `ch` and will see to it that the flag of `ch` is set. */
  predicate Flagging(pc: SenderPc, ch: Channel) { (pc.TestFlag? || pc.SetFlag?) && pc.ch == ch }

  /** The sender has queued a message and will set the slot `noti`. */
  predicate Announcing(pc: SenderPc, noti: Target) { pc.Count? || pc.Unlock? || pc == SetSlot(noti) }

  ghost predicate SomeWaking(s: State) { exists t: Thread :: Waking(s.Pc(t)) }
  ghost predicate SomeRetracting(s: State) { exists t: Thread :: Retracting(s.Pc(t)) }
  ghost predicate SomeFlagging(s: State, ch: Channel) { exists t: Thread :: Flagging(s.Pc(t), ch) }
  ghost predicate SomeAnnouncing(s: State) { exists t: Thread :: Announcing(s.Pc(t), s.cfg.Noti()) }

  /** A set flag is never forgotten: the loop is told, or some sender is committed to tell it. */
  ghost predicate FlagNoticed(s: State, ch: Channel)
  {
    ch in s.wake.flags ==> s.wake.skipped || 0 < s.wake.pipe || WillTest(s.loop, ch) || SomeWaking(s)
  }

  /** While the loop blocks, `skipped` can only be up because a sender is about to see `wanted`. */
  ghost predicate SkipIsTransient(s: State)
  {
    s.loop == Poll(true) && s.wake.skipped ==> SomeRetracting(s)
  }

  /** A set slot is never forgotten: its flag is up, the scan has it ahead, or a sender will raise the flag. */
  ghost predicate SlotNoticed(s: State, g: Target)
  {
    g in s.wake.slots ==> g.ch in s.wake.flags || WillScan(s.loop, g) || SomeFlagging(s, g.ch)
  }

  /** A queued message is never forgotten: its watcher is sent, fed or about to cut, or a notifier is mid-call. */
  ghost predicate QueueNoticed(s: State)
  {
    s.post.queue != [] ==>
      || s.cfg.Noti() in s.wake.slots
      || s.cfg.Noti() in s.local.fed
      || s.loop == Feed(Async, s.cfg.noti)
      || s.loop.DrainLock? || s.loop.DrainCut?
      || SomeAnnouncing(s)
  }

  ghost predicate SlotsExist(s: State)
  {
    && (forall g: Target :: g in s.wake.slots ==> g.slot < s.cfg.Size(g.ch))
    && (forall t: Thread :: s.Pc(t).SetSlot? ==> s.Pc(t).target.slot < s.cfg.Size(s.Pc(t).target.ch))
  }

  predicate InPipecb(pc: LoopPc) { pc.TestPending? || pc.ClearPending? || pc.Scan? || pc.ResetSlot? || pc.Feed? }

  predicate InDrain(pc: LoopPc)
  {
    pc.DrainLock? || pc.DrainCut? || pc.DrainCount? || pc.DrainUnlock? || pc.DrainRun?
  }

  ghost predicate LoopShape(cfg: Config, pc: LoopPc, w: Wake, l: Local)
  {
    && (w.wanted <==> pc.TestSkipped? || pc.Poll? || pc.ClearWanted?)
    && (l.fed != {} ==> InPipecb(pc) || pc.Dispatch? || InDrain(pc))
    && (pc.ResetSlot? || pc.Feed? ==> pc.i < cfg.Size(pc.ch))
    && (l.evRead && (pc.ClearWanted? || pc.CheckSkipped? || pc.InvokePipe? || pc.ReadPipe?) ==> 0 < w.pipe)
  }

  predicate InCriticalSection(pc: SenderPc) { pc.Append? || pc.Count? || pc.Unlock? }

  ghost predicate MutexHeld(s: State)
  {
    && (forall t: Thread :: InCriticalSection(s.Pc(t)) <==> s.post.mutex == HeldBySender(t))
    && (s.post.mutex == HeldByLoop <==> s.loop.DrainCut? || s.loop.DrainCount? || s.loop.DrainUnlock?)
  }

  /** `num_msgs` counts the queue, modulo 2^32, except between the two writes of a critical section. */
  ghost predicate CountsQueue(s: State)
  {
    match s.post.mutex
    case HeldBySender(t) =>
      Mod32(s.post.numMsgs + (if s.Pc(t).Count? then 1 else 0)) == Mod32(|s.post.queue|)
    case HeldByLoop =>
      if s.loop.DrainCount? then s.post.queue == [] else Mod32(s.post.numMsgs) == Mod32(|s.post.queue|)
    case Free => Mod32(s.post.numMsgs) == Mod32(|s.post.queue|)
  }

  /** No message is lost, duplicated or reordered. */
  ghost predicate InOrder(s: State)
  {
    && s.post.accepted == s.post.executed + s.post.batch + s.post.queue
    && (s.post.batch != [] ==> s.loop.DrainCount? || s.loop.DrainUnlock? || s.loop.DrainRun?)
  }

  ghost predicate Noticed(s: State)
  {
    && FlagNoticed(s, Sig) && FlagNoticed(s, Async)
    && SkipIsTransient(s)
    && (forall g: Target :: SlotNoticed(s, g))
    && QueueNoticed(s)
  }

  ghost predicate Shape(s: State)
  {
    && s.cfg.Valid()
    && SlotsExist(s)
    && LoopShape(s.cfg, s.loop, s.wake, s.local)
    && MutexHeld(s)
    && CountsQueue(s)
    && InOrder(s)
  }

  ghost predicate Inv(s: State) { Shape(s) && Noticed(s) }

  // ---------- every step keeps the invariant ----------

  lemma SenderKeepsFlagNoticed(s: State, t: Thread, job: Job, ch: Channel)
    requires s.cfg.Valid() && FlagNoticed(s, ch)
    ensures FlagNoticed(SenderStep(s, t, job), ch)
  {
    var s' := SenderStep(s, t, job);
    if u: Thread :| Waking(s.Pc(u)) { assert u != t ==> s'.Pc(u) == s.Pc(u); }
    assert Waking(s'.Pc(t)) || !Waking(s'.Pc(t));
  }

  lemma SenderKeepsSkipIsTransient(s: State, t: Thread, job: Job)
    requires SkipIsTransient(s) && (s.loop == Poll(true) ==> s.wake.wanted)
    ensures SkipIsTransient(SenderStep(s, t, job))
  {
    var s' := SenderStep(s, t, job);
    if u: Thread :| Retracting(s.Pc(u)) { assert u != t ==> s'.Pc(u) == s.Pc(u); }
    assert Retracting(s'.Pc(t)) || !Retracting(s'.Pc(t));
  }

  lemma SenderKeepsSlotNoticed(s: State, t: Thread, job: Job, g: Target)
    requires SlotNoticed(s, g)
    ensures SlotNoticed(SenderStep(s, t, job), g)
  {
    var s' := SenderStep(s, t, job);
    if u: Thread :| Flagging(s.Pc(u), g.ch) { assert u != t ==> s'.Pc(u) == s.Pc(u); }
    assert Flagging(s'.Pc(t), g.ch) || !Flagging(s'.Pc(t), g.ch);
  }

  lemma SenderKeepsQueueNoticed(s: State, t: Thread, job: Job)
    requires QueueNoticed(s)
    ensures QueueNoticed(SenderStep(s, t, job))
  {
    var s' := SenderStep(s, t, job);
    var noti := s.cfg.Noti();
    if u: Thread :| Announcing(s.Pc(u), noti) { assert u != t ==> s'.Pc(u) == s.Pc(u); }
    assert Announcing(s'.Pc(t), noti) || !Announcing(s'.Pc(t), noti);
  }

  lemma SenderKeepsPlaces(s: State, t: Thread, job: Job)
    requires SenderEnabled(s, t, job) && Shape(s)
    ensures var s' := SenderStep(s, t, job);
      SlotsExist(s') && LoopShape(s'.cfg, s'.loop, s'.wake, s'.local) && MutexHeld(s')
  {
    var s' := SenderStep(s, t, job);
    assert forall u: Thread :: u != t ==> s'.Pc(u) == s.Pc(u);
    assert InCriticalSection(s.Pc(t)) <==> s.post.mutex == HeldBySender(t);
  }

  /** A sender is in its critical section exactly while it holds the mutex. */
  lemma SenderHolds(s: State, t: Thread)
    requires Shape(s)
    ensures InCriticalSection(s.Pc(t)) <==> s.post.mutex == HeldBySender(t)
  {
  }

  lemma SenderKeepsCount(s: State, t: Thread, job: Job)
    requires SenderEnabled(s, t, job) && CountsQueue(s)
    requires InCriticalSection(s.Pc(t)) <==> s.post.mutex == HeldBySender(t)
    ensures CountsQueue(SenderStep(s, t, job))
  {
    hide Mod32;
    Mod32Next(s.post.numMsgs, |s.post.queue|);
    Mod32Next(s.post.numMsgs + 1, |s.post.queue|);
    var s' := SenderStep(s, t, job);
    assert forall u: Thread :: u != t ==> s'.Pc(u) == s.Pc(u);
  }

  lemma SenderKeepsOrder(s: State, t: Thread, job: Job)
    requires InOrder(s)
    ensures InOrder(SenderStep(s, t, job))
  {
  }

  lemma SenderKeepsQueue(s: State, t: Thread, job: Job)
    requires SenderEnabled(s, t, job) && Shape(s)
    ensures CountsQueue(SenderStep(s, t, job)) && InOrder(SenderStep(s, t, job))
  {
    hide SlotsExist, LoopShape, CountsQueue, InOrder, SenderStep;
    SenderHolds(s, t);
    SenderKeepsCount(s, t, job);
    SenderKeepsOrder(s, t, job);
  }

  lemma SameSenders(s: State, s': State)
    requires s'.senders == s.senders && s'.cfg == s.cfg
    ensures SomeWaking(s') == SomeWaking(s) && SomeRetracting(s') == SomeRetracting(s)
    ensures forall ch :: SomeFlagging(s', ch) == SomeFlagging(s, ch)
    ensures SomeAnnouncing(s') == SomeAnnouncing(s)
  {
    assert forall u: Thread :: s'.Pc(u) == s.Pc(u);
  }

  lemma LoopKeepsFlagNoticed(s: State, c: Choice, ch: Channel)
    requires s.cfg.Valid() && FlagNoticed(s, ch)
    ensures FlagNoticed(LoopStep(s, c), ch)
  {
    SameSenders(s, LoopStep(s, c));
  }

  lemma LoopKeepsSlotNoticed(s: State, c: Choice, g: Target)
    requires SlotsExist(s) && SlotNoticed(s, g)
    ensures SlotNoticed(LoopStep(s, c), g)
  {
    SameSenders(s, LoopStep(s, c));
  }

  lemma LoopKeepsQueueNoticed(s: State, c: Choice)
    requires LoopEnabled(s, c) && QueueNoticed(s)
    ensures QueueNoticed(LoopStep(s, c))
  {
    SameSenders(s, LoopStep(s, c));
  }

  lemma LoopKeepsPlaces(s: State, c: Choice)
    requires LoopEnabled(s, c) && Shape(s)
    ensures var s' := LoopStep(s, c);
      SlotsExist(s') && LoopShape(s'.cfg, s'.loop, s'.wake, s'.local) && MutexHeld(s')
  {
    var s' := LoopStep(s, c);
    assert forall u: Thread :: s'.Pc(u) == s.Pc(u);
  }

  lemma LoopKeepsQueue(s: State, c: Choice)
    requires LoopEnabled(s, c) && Shape(s)
    ensures CountsQueue(LoopStep(s, c)) && InOrder(LoopStep(s, c))
  {
    var s' := LoopStep(s, c);
    assert forall u: Thread :: s'.Pc(u) == s.Pc(u);
  }

  lemma LoopKeepsSkipIsTransient(s: State, c: Choice)
    requires SkipIsTransient(s)
    ensures SkipIsTransient(LoopStep(s, c))
  {
    SameSenders(s, LoopStep(s, c));
  }

  lemma StepKeepsInv(s: State, step: Step)
    requires Inv(s) && Enabled(s, step)
    ensures Inv(Next(s, step))
  {
    match step
    case BySender(t, job) =>
      SenderKeepsFlagNoticed(s, t, job, Sig);
      SenderKeepsFlagNoticed(s, t, job, Async);
      SenderKeepsSkipIsTransient(s, t, job);
      forall g: Target ensures SlotNoticed(SenderStep(s, t, job), g) { SenderKeepsSlotNoticed(s, t, job, g); }
      SenderKeepsQueueNoticed(s, t, job);
      SenderKeepsPlaces(s, t, job);
      SenderKeepsQueue(s, t, job);
    case ByLoop(c) =>
      LoopKeepsFlagNoticed(s, c, Sig);
      LoopKeepsFlagNoticed(s, c, Async);
      LoopKeepsSkipIsTransient(s, c);
      forall g: Target ensures SlotNoticed(LoopStep(s, c), g) { LoopKeepsSlotNoticed(s, c, g); }
      LoopKeepsQueueNoticed(s, c);
      LoopKeepsPlaces(s, c);
      LoopKeepsQueue(s, c);
  }

  lemma {:induction false} RunKeepsInv(s: State, steps: seq<Step>)
    requires Inv(s) && IsRun(s, steps)
    ensures Inv(After(s, steps))
    decreases |steps|
  {
    if steps != [] {
      StepKeepsInv(s, steps[0]);
      RunKeepsInv(Next(s, steps[0]), steps[1..]);
    }
  }

  /** Every state of every run from a fresh loop satisfies the invariant. */
  lemma ReachableInv(cfg: Config, steps: seq<Step>)
    requires cfg.Valid() && IsRun(Init(cfg), steps)
    ensures Inv(After(Init(cfg), steps))
  {
    RunKeepsInv(Init(cfg), steps);
  }

  // ---------- safety over whole runs ----------

  /** The sender is inside evpipe_write. */
  predicate InEvpipeWrite(pc: SenderPc)
  {
    pc.TestFlag? || pc.SetFlag? || pc.SetSkipped? || pc.TestWanted? || pc.ClearSkipped? || pc.WritePipe?
  }

  /** No lost wake-up: when the loop blocks in its backend and no sender is inside evpipe_write,
      a set flag means that the wake-up pipe is readable, so the backend returns. */
  lemma NoLostWakeup(cfg: Config, steps: seq<Step>, ch: Channel)
    requires cfg.Valid() && IsRun(Init(cfg), steps)
    requires var s := After(Init(cfg), steps);
      s.loop == Poll(true) && ch in s.wake.flags && forall t: Thread :: !InEvpipeWrite(s.Pc(t))
    ensures 0 < After(Init(cfg), steps).wake.pipe
  {
    ReachableInv(cfg, steps);
    var s := After(Init(cfg), steps);
    assert FlagNoticed(s, ch);
    assert forall t: Thread :: Waking(s.Pc(t)) || Retracting(s.Pc(t)) ==> InEvpipeWrite(s.Pc(t));
  }

  /** A sent watcher is never overlooked: its flag is up, or pipecb has not yet scanned it, or a
      sender that set a slot of the same kind is still at the flag. */
  lemma NoOverlookedWatcher(cfg: Config, steps: seq<Step>, g: Target)
    requires cfg.Valid() && IsRun(Init(cfg), steps)
    requires g in After(Init(cfg), steps).wake.slots
    ensures var s := After(Init(cfg), steps);
      g.ch in s.wake.flags || WillScan(s.loop, g) || SomeFlagging(s, g.ch)
  {
    ReachableInv(cfg, steps);
    assert SlotNoticed(After(Init(cfg), steps), g);
  }

  /** Handlers run once each and in the global order of queueing: the handlers that ran, those of
      the batch being run and those still queued are together exactly what was accepted.
      While nobody holds the mutex, num_msgs is the queue's length modulo 2^32. */
  lemma ExecutedInOrder(cfg: Config, steps: seq<Step>)
    requires cfg.Valid() && IsRun(Init(cfg), steps)
    ensures var p := After(Init(cfg), steps).post;
      && p.accepted == p.executed + p.batch + p.queue
      && p.executed <= p.accepted
      && (p.mutex == Free ==> Mod32(p.numMsgs) == Mod32(|p.queue|))
  {
    ReachableInv(cfg, steps);
  }

  /** No thread is between the start and the return of a send. */
  ghost predicate Quiet(s: State) { forall t: Thread :: s.Pc(t) == Idle }

  lemma QuietSenders(s: State)
    requires Quiet(s)
    ensures !SomeWaking(s) && !SomeRetracting(s) && !SomeAnnouncing(s)
    ensures forall ch :: !SomeFlagging(s, ch)
    ensures Inv(s) ==> !s.post.mutex.HeldBySender?
  {
    if Inv(s) {
      forall t: Thread ensures s.post.mutex != HeldBySender(t) {
        assert !InCriticalSection(s.Pc(t));
      }
    }
  }

  /** No message is stranded by coalescing: with no notifier mid-call, a loop that blocks
      although messages are queued finds its wake-up pipe readable. */
  lemma NoStrandedMessage(cfg: Config, steps: seq<Step>)
    requires cfg.Valid() && IsRun(Init(cfg), steps)
    requires var s := After(Init(cfg), steps); Quiet(s) && s.loop == Poll(true) && s.post.queue != []
    ensures var s := After(Init(cfg), steps);
      s.cfg.Noti() in s.wake.slots && Async in s.wake.flags && 0 < s.wake.pipe
  {
    ReachableInv(cfg, steps);
    var s := After(Init(cfg), steps);
    QuietSenders(s);
    assert SlotNoticed(s, s.cfg.Noti());
  }

  // ---------- once the senders fall silent, the loop alone runs every message ----------

  /** The current turn of the loop, without further sends, will cut the queue. */
  ghost predicate WillServe(s: State)
  {
    match s.loop
    case SetWanted => true
    case TestSkipped => true
    case Poll(_) => true
    case ClearWanted => s.local.evRead || s.wake.skipped
    case CheckSkipped => s.local.evRead || s.wake.skipped
    case InvokePipe => s.local.evRead || s.local.evCustom
    case ReadPipe => true
    case ResetSkipped => true
    case DrainLock => true
    case DrainCut => true
    case pc =>
      || s.cfg.Noti() in s.local.fed
      || pc == Feed(Async, s.cfg.noti)
      || (s.cfg.Noti() in s.wake.slots && ((WillTest(pc, Async) && Async in s.wake.flags) || WillScan(pc, s.cfg.Noti())))
  }

  /** Upper bound on the steps left in this turn, apart from handler calls. */
  function TurnLeft(cfg: Config, pc: LoopPc, nFed: nat): nat
  {
    var n := 6 * nFed + 1;
    match pc
    case SetWanted => 16 + 9 * cfg.nSig + 9 * cfg.nAsync
    case TestSkipped => 15 + 9 * cfg.nSig + 9 * cfg.nAsync
    case Poll(_) => 14 + 9 * cfg.nSig + 9 * cfg.nAsync
    case ClearWanted => 13 + 9 * cfg.nSig + 9 * cfg.nAsync
    case CheckSkipped => 12 + 9 * cfg.nSig + 9 * cfg.nAsync
    case InvokePipe => 11 + 9 * cfg.nSig + 9 * cfg.nAsync
    case ReadPipe => 10 + 9 * cfg.nSig + 9 * cfg.nAsync
    case ResetSkipped => 9 + 9 * cfg.nSig + 9 * cfg.nAsync
    case TestPending(ch) => n + if ch == Sig then 6 + 9 * cfg.nSig + 9 * cfg.nAsync else 3 + 9 * cfg.nAsync
    case ClearPending(ch) => n + if ch == Sig then 5 + 9 * cfg.nSig + 9 * cfg.nAsync else 2 + 9 * cfg.nAsync
    case Scan(ch, i) => n + 9 * i + if ch == Sig then 4 + 9 * cfg.nAsync else 1
    case ResetSlot(ch, i) => n + 9 * i + if ch == Sig then 12 + 9 * cfg.nAsync else 9
    case Feed(ch, i) => n + 9 * i + if ch == Sig then 11 + 9 * cfg.nAsync else 8
    case Dispatch => n
    case DrainLock => n + 5
    case DrainCut => n + 4
    case DrainCount => n + 3
    case DrainUnlock => n + 2
    case DrainRun => n + 1
  }

  function Turn(cfg: Config): nat { 16 + 9 * cfg.nSig + 9 * cfg.nAsync }

  /** Loop steps until every accepted message has been executed, if no further message comes. */
  ghost function Rank(s: State): nat
  {
    |s.post.batch| + |s.post.queue|
    + (if s.post.queue != [] && !WillServe(s) then Turn(s.cfg) else 0)
    + TurnLeft(s.cfg, s.loop, |s.local.fed|)
  }

  lemma FedSize(l: Local, w: Wake, pc: LoopPc, pick: Target)
    ensures var l' := LoopLocal(l, w, pc, pick);
      && (pc.Feed? ==> |l'.fed| <= |l.fed| + 1)
      && (pc.Dispatch? && pick in l.fed ==> |l'.fed| == |l.fed| - 1)
      && (!pc.Feed? && !pc.Dispatch? ==> l'.fed == l.fed)
  {
  }

  lemma TurnShrinksInPipecb(s: State, c: Choice)
    requires LoopShape(s.cfg, s.loop, s.wake, s.local) && InPipecb(s.loop)
    ensures TurnLeft(s.cfg, LoopPcNext(s, c), |LoopLocal(s.local, s.wake, s.loop, c.pick).fed|)
         < TurnLeft(s.cfg, s.loop, |s.local.fed|)
  {
    FedSize(s.local, s.wake, s.loop, c.pick);
  }

  lemma NothingFed(s: State)
    requires LoopShape(s.cfg, s.loop, s.wake, s.local)
    ensures !InPipecb(s.loop) && !s.loop.Dispatch? && !InDrain(s.loop) ==> s.local.fed == {}
  {
  }

  lemma TurnShrinksElsewhere(s: State, c: Choice)
    requires LoopShape(s.cfg, s.loop, s.wake, s.local) && LoopEnabled(s, c) && !InPipecb(s.loop)
    requires s.loop.DrainRun? ==> s.post.batch == []
    requires s.loop.Dispatch? ==> s.local.fed != {}
    ensures TurnLeft(s.cfg, LoopPcNext(s, c), |LoopLocal(s.local, s.wake, s.loop, c.pick).fed|)
         < TurnLeft(s.cfg, s.loop, |s.local.fed|)
  {
    NothingFed(s);
    hide LoopShape, LoopLocal;
    FedSize(s.local, s.wake, s.loop, c.pick);
  }

  /** Without senders, a queued message always has its watcher sent, fed or about to be called. */
  lemma QuietQueue(s: State)
    requires Inv(s) && Quiet(s) && s.post.queue != []
    ensures s.cfg.Noti() in s.wake.slots || s.cfg.Noti() in s.local.fed || s.loop == Feed(Async, s.cfg.noti)
         || s.loop.DrainLock? || s.loop.DrainCut?
    ensures s.cfg.Noti() in s.wake.slots ==> Async in s.wake.flags || WillScan(s.loop, s.cfg.Noti())
    ensures Async in s.wake.flags ==> s.wake.skipped || 0 < s.wake.pipe || WillTest(s.loop, Async)
  {
    QuietSenders(s);
    assert SlotNoticed(s, s.cfg.Noti());
  }

  lemma KeepsServing(s: State, c: Choice)
    requires Inv(s) && Quiet(s) && LoopEnabled(s, c)
    requires s.post.queue != [] && WillServe(s) && !s.loop.DrainCut?
    ensures WillServe(LoopStep(s, c))
  {
    QuietQueue(s);
  }

  lemma RankShrinks(s: State, c: Choice)
    requires Inv(s) && Quiet(s) && LoopEnabled(s, c)
    requires s.post.executed != s.post.accepted
    ensures Rank(LoopStep(s, c)) < Rank(s)
  {
    var s' := LoopStep(s, c);
    if s.loop.DrainRun? && s.post.batch != [] {
      assert s'.local == s.local && s'.wake == s.wake;
    } else if s.loop.Dispatch? && s.local.fed == {} {
      assert s'.loop == SetWanted;
    } else {
      if InPipecb(s.loop) { TurnShrinksInPipecb(s, c); } else { TurnShrinksElsewhere(s, c); }
    }
    if s.post.queue != [] && WillServe(s) && !s.loop.DrainCut? {
      KeepsServing(s, c);
    }
  }

  /** The loop is never stuck with work left: it has a step that does not wait for an unrelated event. */
  lemma NeverStuck(s: State)
    requires Inv(s) && Quiet(s) && s.post.executed != s.post.accepted
    ensures exists c: Choice :: !c.other && LoopEnabled(s, c)
  {
    QuietSenders(s);
    if s.post.queue != [] { QuietQueue(s); }
    var pick :| s.local.fed != {} ==> pick in s.local.fed;
    assert LoopEnabled(s, Choice(false, false, pick));
  }

  function LoopOnly(cs: seq<Choice>): seq<Step> { seq(|cs|, i requires 0 <= i < |cs| => ByLoop(cs[i])) }

  lemma {:induction false} DrainedFrom(s: State, cs: seq<Choice>)
    requires Inv(s) && Quiet(s) && IsRun(s, LoopOnly(cs)) && Rank(s) <= |cs|
    ensures var s' := After(s, LoopOnly(cs)); s'.post.executed == s'.post.accepted == s.post.accepted
    decreases |cs|
  {
    if cs == [] {
      assert false;
    } else {
      var s1 := LoopStep(s, cs[0]);
      assert LoopOnly(cs)[1..] == LoopOnly(cs[1..]);
      StepKeepsInv(s, ByLoop(cs[0]));
      assert forall u: Thread :: s1.Pc(u) == s.Pc(u);
      if s.post.executed == s.post.accepted {
        StaysDrained(s, cs);
      } else {
        RankShrinks(s, cs[0]);
        DrainedFrom(s1, cs[1..]);
      }
    }
  }

  lemma {:induction false} StaysDrained(s: State, cs: seq<Choice>)
    requires Inv(s) && IsRun(s, LoopOnly(cs)) && s.post.executed == s.post.accepted
    ensures After(s, LoopOnly(cs)).post.executed == After(s, LoopOnly(cs)).post.accepted == s.post.accepted
    decreases |cs|
  {
    if cs != [] {
      assert LoopOnly(cs)[1..] == LoopOnly(cs[1..]);
      assert s.post.batch == [] && s.post.queue == [];
      StepKeepsInv(s, ByLoop(cs[0]));
      StaysDrained(LoopStep(s, cs[0]), cs[1..]);
    }
  }

  /** Eventual delivery: from any reachable state in which no thread is mid-send, every run of the
      loop alone that lasts `Rank` steps executes every accepted message, and the loop is never
      stuck before that.  The messages accepted are unchanged meanwhile. */
  lemma EveryMessageRuns(cfg: Config, steps: seq<Step>, cs: seq<Choice>)
    requires cfg.Valid() && IsRun(Init(cfg), steps)
    requires Quiet(After(Init(cfg), steps))
    requires IsRun(After(Init(cfg), steps), LoopOnly(cs))
    requires Rank(After(Init(cfg), steps)) <= |cs|
    ensures var s := After(Init(cfg), steps);
      && After(s, LoopOnly(cs)).post.executed == s.post.accepted
      && (s.post.executed != s.post.accepted ==> exists c: Choice :: !c.other && LoopEnabled(s, c))
  {
    ReachableInv(cfg, steps);
    var s := After(Init(cfg), steps);
    DrainedFrom(s, cs);
    if s.post.executed != s.post.accepted { NeverStuck(s); }
  }
}

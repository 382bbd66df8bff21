/** The loop comes to rest: once no thread is sending, it empties the wake-up pipe, clears the flags, calls every
  watcher that was sent, runs every message, and then sleeps.
*/
module WakeupRest {
  import opened Wakeup
  import opened WakeupProgress

  /** Nothing is left to do, and nothing keeps the loop from sleeping. */
  predicate AtRest(s: State)
  {
    && s.wake.pipe == 0 && s.wake.flags == {} && s.wake.slots == {} && !s.wake.skipped
    && s.local.fed == {} && !s.loop.ResetSlot? && !s.loop.Feed?
    && s.post.queue == [] && s.post.batch == []
  }

  /** In this turn the loop will read the pipe. */
  predicate WillRead(s: State)
  {
    match s.loop
    case SetWanted => 0 < s.wake.pipe
    case TestSkipped => 0 < s.wake.pipe
    case Poll(_) => 0 < s.wake.pipe
    case ClearWanted => s.local.evRead
    case CheckSkipped => s.local.evRead
    case InvokePipe => s.local.evRead
    case ReadPipe => true
    case _ => false
  }

  /** In this turn the loop will reset `skipped` and test both flags. */
  predicate WillClean(s: State)
  {
    match s.loop
    case SetWanted => 0 < s.wake.pipe || s.wake.skipped
    case TestSkipped => 0 < s.wake.pipe || s.wake.skipped
    case Poll(_) => 0 < s.wake.pipe || s.wake.skipped
    case ClearWanted => s.local.evRead || s.wake.skipped
    case CheckSkipped => s.local.evRead || s.wake.skipped
    case InvokePipe => s.local.evRead || s.local.evCustom
    case ReadPipe => true
    case ResetSkipped => true
    case _ => false
  }

  /** Something will be up at the end of this turn. */
  predicate LeftUp(s: State)
  {
    && !WillClean(s)
    && (s.wake.skipped || (Sig in s.wake.flags && !WillTest(s.loop, Sig)) || (Async in s.wake.flags && !WillTest(s.loop, Async)))
  }

  /** Reads until the pipe is empty: one of the whole counter, or four bytes at a time. */
  function Reads(cfg: Config, pipe: nat): nat
  {
    if cfg.eventfd then (if pipe == 0 then 0 else 1) else (pipe + 3) / 4
  }

  /** A bound on the turns that follow this one before the loop is at rest. */
  function MoreTurns(s: State): nat
  {
    var n := Reads(s.cfg, s.wake.pipe);
    (if WillRead(s) && 0 < n then n - 1 else n) + (if LeftUp(s) then 1 else 0)
  }

  /** The length of `n` turns. */
  function Turns(turn: nat, n: nat): nat { if n == 0 then 0 else turn + Turns(turn, n - 1) }

  /** Steps of the loop alone until it is at rest. */
  function Work(s: State): nat
  {
    |s.post.batch| + |s.post.queue| + Left(s) + Turns(LongTurn(s.cfg), MoreTurns(s))
  }

  // ---------- every step but those at rest brings the rest nearer ----------

  lemma TurnsFall(s: State, c: Choice)
    requires LoopShape(s.cfg, s.loop, s.wake, s.local) && LoopEnabled(s, c)
    requires !(s.loop.Dispatch? && s.local.fed == {})
    ensures MoreTurns(LoopStep(s, c)) <= MoreTurns(s)
  {
  }

  /** At the end of a turn: the loop is at rest, or the next turn leaves less to do. */
  lemma TurnEnds(s: State, c: Choice)
    requires Inv(s) && Quiet(s) && s.loop.Dispatch? && s.local.fed == {} && !AtRest(s)
    ensures LoopStep(s, c).loop == SetWanted && MoreTurns(LoopStep(s, c)) < MoreTurns(s)
  {
    QuietSenders(s);
    assert FlagNoticed(s, Sig) && FlagNoticed(s, Async) && QueueNoticed(s);
    if s.wake.flags != {} {
      var ch :| ch in s.wake.flags;
      assert ch == Sig || ch == Async;
    } else if s.wake.slots != {} {
      var g :| g in s.wake.slots;
      assert SlotNoticed(s, g);
    }
  }

  lemma MessagesLeft(s: State, c: Choice)
    ensures var p, p' := s.post, LoopStep(s, c).post;
      |p'.batch| + |p'.queue| == |p.batch| + |p.queue| - (if s.loop.DrainRun? && p.batch != [] then 1 else 0)
        || s.loop.DrainCut?
    ensures s.loop.DrainCut? ==> LoopStep(s, c).post.batch == s.post.queue && LoopStep(s, c).post.queue == []
  {
  }

  lemma WorkIs(s: State)
    ensures Work(s) == |s.post.batch| + |s.post.queue| + Left(s) + Turns(LongTurn(s.cfg), MoreTurns(s))
  {
  }

  lemma {:induction false} FewerTurns(turn: nat, m: nat, n: nat)
    requires m <= n
    ensures Turns(turn, m) <= Turns(turn, n) && (m < n ==> Turns(turn, m) + turn <= Turns(turn, n))
    decreases n
  {
    if m < n { FewerTurns(turn, m, n - 1); }
  }

  lemma BatchTaken(s: State)
    requires Inv(s) && s.loop.DrainCut?
    ensures s.post.batch == []
  {
  }

  lemma WorkFalls(s: State, c: Choice)
    requires Inv(s) && Bounded(s) && Quiet(s) && LoopEnabled(s, c) && !AtRest(s)
    ensures Work(LoopStep(s, c)) < Work(s)
  {
    hide Inv, Bounded, Quiet, LoopEnabled, AtRest, Work, MoreTurns, LongTurn, Left, LoopStep;
    var s' := LoopStep(s, c);
    LoopKeepsInv(s, c);
    LoopKeepsBounded(s, c);
    InvLeft(s);
    InvLeft(s');
    LoopAdvances(s, c);
    MessagesLeft(s, c);
    if s.loop.DrainCut? { BatchTaken(s); }
    WorkIs(s);
    WorkIs(s');
    if s.loop.Dispatch? && s.local.fed == {} {
      TurnEnds(s, c);
    } else {
      InvShape(s);
      TurnsFall(s, c);
    }
    FewerTurns(LongTurn(s.cfg), MoreTurns(s'), MoreTurns(s));
  }

  lemma InvShape(s: State)
    requires Inv(s)
    ensures LoopShape(s.cfg, s.loop, s.wake, s.local)
  {
  }

  /** The loop alone never leaves the state of rest. */
  lemma RestStays(s: State, c: Choice)
    requires AtRest(s)
    ensures AtRest(LoopStep(s, c))
  {
  }

  lemma {:induction false} RestStaysLong(s: State, cs: seq<Choice>)
    requires AtRest(s)
    ensures AtRest(After(s, LoopOnly(cs)))
    decreases |cs|
  {
    hide AtRest, LoopStep;
    if cs != [] {
      assert LoopOnly(cs)[1..] == LoopOnly(cs[1..]);
      RestStays(s, cs[0]);
      RestStaysLong(LoopStep(s, cs[0]), cs[1..]);
    }
  }

  lemma QuietStays(s: State, c: Choice)
    requires Quiet(s)
    ensures Quiet(LoopStep(s, c))
  {
    assert forall t: Thread :: LoopStep(s, c).Pc(t) == s.Pc(t);
  }

  /** A run of the loop alone, step by step. */
  lemma LoopRun(s: State, cs: seq<Choice>)
    requires IsRun(s, LoopOnly(cs)) && cs != []
    ensures LoopEnabled(s, cs[0]) && IsRun(LoopStep(s, cs[0]), LoopOnly(cs[1..]))
    ensures After(s, LoopOnly(cs)) == After(LoopStep(s, cs[0]), LoopOnly(cs[1..]))
  {
    hide LoopEnabled, LoopStep;
    assert LoopOnly(cs)[1..] == LoopOnly(cs[1..]);
    assert LoopOnly(cs)[0] == ByLoop(cs[0]);
  }

  lemma {:induction false} RestsAfter(s: State, cs: seq<Choice>)
    requires Inv(s) && Bounded(s) && Quiet(s) && IsRun(s, LoopOnly(cs)) && Work(s) <= |cs|
    ensures AtRest(After(s, LoopOnly(cs)))
    decreases |cs|
  {
    hide *;
    if AtRest(s) {
      RestStaysLong(s, cs);
    } else {
      WorkBound(s);
      LoopRun(s, cs);
      LoopKeepsInv(s, cs[0]);
      LoopKeepsBounded(s, cs[0]);
      QuietStays(s, cs[0]);
      WorkFalls(s, cs[0]);
      RestsAfter(LoopStep(s, cs[0]), cs[1..]);
    }
  }

  lemma TurnsBound(s: State)
    ensures MoreTurns(s) <= Reads(s.cfg, s.wake.pipe) + 1
  {
  }

  lemma WorkBound(s: State)
    requires Inv(s) && Bounded(s)
    ensures 1 <= Work(s) <= |s.post.batch| + |s.post.queue| + Turns(LongTurn(s.cfg), Reads(s.cfg, s.wake.pipe) + 2)
  {
    hide *;
    InvLeft(s);
    WorkIs(s);
    TurnsBound(s);
    FewerTurns(LongTurn(s.cfg), MoreTurns(s), Reads(s.cfg, s.wake.pipe) + 2);
  }

  /** The loop comes to rest: from every reachable state in which no thread is mid-send, every run of the loop alone
      of a known length leaves nothing to do, and from then on the loop wakes up for unrelated reasons only. */
  lemma LoopComesToRest(cfg: Config, steps: seq<Step>, cs: seq<Choice>, more: seq<Choice>)
    requires cfg.Valid() && IsRun(Init(cfg), steps) && Quiet(After(Init(cfg), steps))
    requires IsRun(After(Init(cfg), steps), LoopOnly(cs))
    requires var s := After(Init(cfg), steps);
      |s.post.batch| + |s.post.queue| + Turns(LongTurn(cfg), Reads(s.cfg, s.wake.pipe) + 2) <= |cs|
    ensures var s := After(After(Init(cfg), steps), LoopOnly(cs));
      && AtRest(s) && AtRest(After(s, LoopOnly(more)))
      && (s.loop == Poll(true) ==> forall c: Choice :: LoopEnabled(s, c) ==> c.other)
  {
    hide *;
    InitBounded(cfg);
    RunKeepsBounded(Init(cfg), steps);
    InitConfig(cfg);
    AfterConfig(Init(cfg), steps);
    WorkBound(After(Init(cfg), steps));
    var s := After(After(Init(cfg), steps), LoopOnly(cs));
    RestsAfter(After(Init(cfg), steps), cs);
    RestStaysLong(s, more);
    Sleeps(s);
  }

  lemma Sleeps(s: State)
    requires AtRest(s)
    ensures s.loop == Poll(true) ==> forall c: Choice :: LoopEnabled(s, c) ==> c.other
  {
  }

  /** A fresh loop is at rest, and nobody is in a call. */
  lemma FreshRests(cfg: Config)
    ensures AtRest(Init(cfg)) && Quiet(Init(cfg)) && !Init(cfg).wake.wanted && !Init(cfg).local.evRead && !Init(cfg).local.evCustom
  {
  }

  /** Nor does it sleep before. */
  lemma SleepsAtRestOnly(cfg: Config, steps: seq<Step>)
    requires cfg.Valid() && IsRun(Init(cfg), steps) && Quiet(After(Init(cfg), steps))
    requires var s := After(Init(cfg), steps);
      s.loop == Poll(true) && forall c: Choice :: LoopEnabled(s, c) ==> c.other
    ensures AtRest(After(Init(cfg), steps))
  {
    ReachableInv(cfg, steps);
    var s := After(Init(cfg), steps);
    QuietSenders(s);
    assert !LoopEnabled(s, Choice(false, false, s.cfg.Noti()));
    assert FlagNoticed(s, Sig) && FlagNoticed(s, Async) && QueueNoticed(s) && SkipIsTransient(s);
    OnlyChannels(s.wake.flags);
    forall g: Target ensures g !in s.wake.slots {
      assert SlotNoticed(s, g);
    }
  }

  lemma OnlyChannels(flags: set<Channel>)
    ensures Sig !in flags && Async !in flags ==> flags == {}
  {
    forall ch | ch in flags ensures ch in {Sig, Async} {
      match ch
      case Sig =>
      case Async =>
    }
  }

  // ---------- every watcher that is sent is called, and no other ----------

  /** How often the slot of `g` is set in a run, and how often `g` is called. */
  function Sets(s: State, steps: seq<Step>, g: Target): nat
    decreases |steps|
  {
    if steps == [] then 0
    else (if steps[0].BySender? && s.Pc(steps[0].t) == SetSlot(g) then 1 else 0) + Sets(Next(s, steps[0]), steps[1..], g)
  }

  function Calls(s: State, steps: seq<Step>, g: Target): nat
    decreases |steps|
  {
    if steps == [] then 0
    else
      (if steps[0].ByLoop? && s.loop.Dispatch? && s.local.fed != {} && steps[0].choice.pick == g then 1 else 0)
      + Calls(Next(s, steps[0]), steps[1..], g)
  }

  /** The places in which `g` waits for its call. */
  function Waiting(s: State, g: Target): nat
  {
    (if g in s.wake.slots then 1 else 0) + (if g in s.local.fed then 1 else 0) + (if s.loop == Feed(g.ch, g.slot) then 1 else 0)
  }

  /** The scan resets only slots that it has found set. */
  predicate Found(s: State) { s.loop.ResetSlot? ==> Target(s.loop.ch, s.loop.i) in s.wake.slots }

  lemma StepWaiting(s: State, step: Step, g: Target)
    requires Found(s) && Enabled(s, step)
    ensures Found(Next(s, step))
    ensures Calls(s, [step], g) + Waiting(Next(s, step), g) <= Sets(s, [step], g) + Waiting(s, g)
    ensures Sets(s, [step], g) + Waiting(s, g) > 0 ==> Calls(s, [step], g) + Waiting(Next(s, step), g) > 0
  {
    assert [step][1..] == [];
  }

  lemma FirstStep(s: State, steps: seq<Step>, g: Target)
    requires steps != []
    ensures Calls(s, steps, g) == Calls(s, [steps[0]], g) + Calls(Next(s, steps[0]), steps[1..], g)
    ensures Sets(s, steps, g) == Sets(s, [steps[0]], g) + Sets(Next(s, steps[0]), steps[1..], g)
  {
    hide Next;
    assert [steps[0]][1..] == [];
  }

  lemma {:induction false} RunWaiting(s: State, steps: seq<Step>, g: Target)
    requires Found(s) && IsRun(s, steps)
    ensures Found(After(s, steps))
    ensures Calls(s, steps, g) + Waiting(After(s, steps), g) <= Sets(s, steps, g) + Waiting(s, g)
    ensures Sets(s, steps, g) + Waiting(s, g) > 0 ==> Calls(s, steps, g) + Waiting(After(s, steps), g) > 0
    decreases |steps|
  {
    hide Next, Enabled, Found, Waiting;
    if steps != [] {
      FirstStep(s, steps, g);
      StepWaiting(s, steps[0], g);
      RunWaiting(Next(s, steps[0]), steps[1..], g);
    }
  }

  /** In every run a watcher is called no more often than it was sent. */
  lemma NoSpuriousCalls(cfg: Config, steps: seq<Step>, g: Target)
    requires cfg.Valid() && IsRun(Init(cfg), steps)
    ensures Calls(Init(cfg), steps, g) <= Sets(Init(cfg), steps, g)
  {
    hide Calls, Sets, After, IsRun;
    RunWaiting(Init(cfg), steps, g);
  }

  lemma NobodyWaits(s: State, g: Target)
    requires AtRest(s)
    ensures Waiting(s, g) == 0
  {
  }

  /** A watcher that was sent is called: whatever happens from the moment thread `t` sets its slot until no thread is
      mid-send, and then within the time in which the loop alone comes to rest. */
  lemma SentIsCalled(cfg: Config, before: seq<Step>, meanwhile: seq<Step>, cs: seq<Choice>, t: Thread, g: Target)
    requires cfg.Valid() && IsRun(Init(cfg), before)
    requires After(Init(cfg), before).Pc(t) == SetSlot(g)
    requires meanwhile != [] && meanwhile[0].BySender? && meanwhile[0].t == t && IsRun(After(Init(cfg), before), meanwhile)
    requires var s := After(After(Init(cfg), before), meanwhile);
      && Quiet(s) && IsRun(s, LoopOnly(cs))
      && |s.post.batch| + |s.post.queue| + Turns(LongTurn(cfg), Reads(s.cfg, s.wake.pipe) + 2) <= |cs|
    ensures var s0 := After(Init(cfg), before);
      Calls(s0, meanwhile, g) + Calls(After(s0, meanwhile), LoopOnly(cs), g) > 0
  {
    hide *;
    InitBounded(cfg);
    InitConfig(cfg);
    InitFound(cfg);
    RunKeepsBounded(Init(cfg), before);
    AfterConfig(Init(cfg), before);
    RunWaiting(Init(cfg), before, g);
    var s0 := After(Init(cfg), before);
    SetNow(s0, meanwhile, t, g);
    RunKeepsBounded(s0, meanwhile);
    AfterConfig(s0, meanwhile);
    RunWaiting(s0, meanwhile, g);
    var s := After(s0, meanwhile);
    WorkBound(s);
    RestsAfter(s, cs);
    RunWaiting(s, LoopOnly(cs), g);
    NobodyWaits(After(s, LoopOnly(cs)), g);
  }

  lemma InitFound(cfg: Config)
    ensures Found(Init(cfg))
  {
  }

  lemma SetNow(s: State, steps: seq<Step>, t: Thread, g: Target)
    requires s.Pc(t) == SetSlot(g) && steps != [] && steps[0].BySender? && steps[0].t == t
    ensures Sets(s, steps, g) > 0
  {
    hide Next;
  }

  // ---------- what one send costs ----------

  /** Thread `t` takes `n` steps. */
  function Alone(t: Thread, job: Job, n: nat): seq<Step> { seq(n, _ => BySender(t, job)) }

  predicate Sending(pc: SenderPc)
  {
    pc.Idle? || pc.SetSlot? || pc.TestFlag? || pc.SetFlag? || pc.SetSkipped? || pc.TestWanted? || pc.ClearSkipped? || pc.WritePipe?
  }

  /** Nobody but `t` is in a call. */
  ghost predicate Others(s: State, t: Thread) { forall u: Thread :: u != t ==> s.Pc(u) == Idle }

  /** What `n` steps of a sender make of the shared words, and where they take it. */
  function Course(cfg: Config, w: Wake, pc: SenderPc, job: Job, n: nat): (Wake, SenderPc)
    decreases n
  {
    if n == 0 then (w, pc) else Course(cfg, SenderWake(cfg, w, pc), SenderPcNext(cfg, w, pc, job), job, n - 1)
  }

  lemma AloneStep(s: State, t: Thread, job: Job)
    requires job.Raise? && job.target.slot < s.cfg.Size(job.target.ch) && Sending(s.Pc(t)) && Others(s, t)
    ensures var s' := SenderStep(s, t, job);
      && SenderEnabled(s, t, job) && s'.cfg == s.cfg && s'.wake == SenderWake(s.cfg, s.wake, s.Pc(t))
      && s'.Pc(t) == SenderPcNext(s.cfg, s.wake, s.Pc(t), job) && Sending(s'.Pc(t)) && Others(s', t)
  {
    assert forall u: Thread :: u != t ==> SenderStep(s, t, job).Pc(u) == s.Pc(u);
  }

  lemma {:induction false} AloneRun(s: State, t: Thread, job: Job, n: nat)
    requires job.Raise? && job.target.slot < s.cfg.Size(job.target.ch) && Sending(s.Pc(t)) && Others(s, t)
    ensures IsRun(s, Alone(t, job, n)) && Others(After(s, Alone(t, job, n)), t)
    ensures var r, s' := Course(s.cfg, s.wake, s.Pc(t), job, n), After(s, Alone(t, job, n));
      s'.wake == r.0 && s'.Pc(t) == r.1
    decreases n
  {
    hide SenderStep, SenderEnabled, SenderWake, SenderPcNext, Sending, Others;
    if n > 0 {
      assert Alone(t, job, n)[1..] == Alone(t, job, n - 1);
      AloneStep(s, t, job);
      AloneRun(SenderStep(s, t, job), t, job, n - 1);
    }
  }

  lemma TwoSteps(cfg: Config, w: Wake, pc: SenderPc, job: Job, n: nat)
    ensures Course(cfg, w, pc, job, n + 2)
         == var w' := SenderWake(cfg, w, pc);
            var pc' := SenderPcNext(cfg, w, pc, job);
            Course(cfg, SenderWake(cfg, w', pc'), SenderPcNext(cfg, w', pc', job), job, n)
  {
    hide SenderWake, SenderPcNext;
  }

  /** From the test of `wanted` on. */
  lemma CourseEnd(cfg: Config, w: Wake, job: Job)
    ensures w.wanted ==> Course(cfg, w, TestWanted, job, 3) == (w.(skipped := false, pipe := Written(cfg, w.pipe)), Idle)
    ensures !w.wanted ==> Course(cfg, w, TestWanted, job, 1) == (w, Idle)
  {
    hide Written;
    TwoSteps(cfg, w, TestWanted, job, 1);
  }

  /** From the start to there. */
  lemma CourseBegin(cfg: Config, w: Wake, g: Target, n: nat)
    requires g.ch !in w.flags
    ensures Course(cfg, w, Idle, Raise(g), n + 5)
         == Course(cfg, w.(slots := w.slots + {g}, flags := w.flags + {g.ch}, skipped := true), TestWanted, Raise(g), n)
  {
    hide Course;
    TwoSteps(cfg, w, Idle, Raise(g), n + 3);
    TwoSteps(cfg, w.(slots := w.slots + {g}), TestFlag(g.ch), Raise(g), n + 1);
    OneStep(cfg, w.(slots := w.slots + {g}, flags := w.flags + {g.ch}), SetSkipped, Raise(g), n);
  }

  lemma OneStep(cfg: Config, w: Wake, pc: SenderPc, job: Job, n: nat)
    ensures Course(cfg, w, pc, job, n + 1) == Course(cfg, SenderWake(cfg, w, pc), SenderPcNext(cfg, w, pc, job), job, n)
  {
  }

  lemma CourseFlagged(cfg: Config, w: Wake, g: Target)
    requires g.ch in w.flags
    ensures Course(cfg, w, Idle, Raise(g), 3) == (w.(slots := w.slots + {g}), Idle)
  {
    TwoSteps(cfg, w, Idle, Raise(g), 1);
  }

  /** The steps of one `ev_async_send` or `ev_feed_signal` that nobody disturbs. */
  function SendLength(w: Wake, ch: Channel): nat { if ch in w.flags then 3 else if w.wanted then 8 else 6 }

  /** A send is free while the flag is up; otherwise it is noted without a system call unless the loop may be
      sleeping, in which case one write is made. */
  lemma OneSend(s: State, t: Thread, g: Target)
    requires Quiet(s) && g.slot < s.cfg.Size(g.ch)
    ensures var run := Alone(t, Raise(g), SendLength(s.wake, g.ch));
      && IsRun(s, run) && Quiet(After(s, run))
      && var w, w' := s.wake, After(s, run).wake;
        if g.ch in w.flags then w' == w.(slots := w.slots + {g})
        else
          && w'.slots == w.slots + {g} && w'.flags == w.flags + {g.ch} && w'.wanted == w.wanted
          && w'.skipped == !w.wanted
          && w'.pipe == if w.wanted && (s.cfg.eventfd || w.pipe < s.cfg.capacity) then w.pipe + 1 else w.pipe
  {
    hide SenderWake, SenderPcNext, Course, IsRun, After;
    AloneRun(s, t, Raise(g), SendLength(s.wake, g.ch));
    if g.ch in s.wake.flags {
      CourseFlagged(s.cfg, s.wake, g);
    } else {
      CourseBegin(s.cfg, s.wake, g, if s.wake.wanted then 3 else 1);
      CourseEnd(s.cfg, s.wake.(slots := s.wake.slots + {g}, flags := s.wake.flags + {g.ch}, skipped := true), Raise(g));
    }
  }
}

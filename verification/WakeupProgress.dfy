/** Progress of the loop while other threads keep sending: a message whose `task_notify` has returned is
  executed within a bounded number of steps of the loop, however the senders interleave.  A step of the
  loop counts unless some sender has yet to raise `skipped`, or to take it back, or to write the pipe: the
  loop cannot know of a wake-up before that, and the sender may take as long as it likes.
*/
module WakeupProgress {
  import opened Wakeup

  // ---------- what is known of a message ----------

  /** The `n` messages accepted first have been cut off the queue. */
  predicate Cut(s: State, n: nat) { |s.post.executed| + |s.post.batch| >= n }

  /** The watcher of the queue has been found, or the scan has yet to reach its slot. */
  predicate Caught(s: State)
  {
    || s.cfg.Noti() in s.local.fed
    || s.loop == Feed(Async, s.cfg.noti)
    || s.loop.DrainLock? || s.loop.DrainCut?
    || (s.cfg.Noti() in s.wake.slots && WillScan(s.loop, s.cfg.Noti()))
  }

  /** The watcher of the queue is sent, and the flag is up. */
  predicate Sent(s: State) { s.cfg.Noti() in s.wake.slots && Async in s.wake.flags }

  /** The loop has been told of the first `n` messages, or at least the flag has been raised for them. */
  predicate Announced(s: State, n: nat) { Cut(s, n) || Caught(s) || Sent(s) }

  /** The loop will test the flags in this turn, whatever the senders do. */
  predicate Reaching(s: State)
  {
    match s.loop
    case SetWanted => 0 < s.wake.pipe
    case TestSkipped => 0 < s.wake.pipe
    case Poll(_) => 0 < s.wake.pipe
    case ClearWanted => s.local.evRead
    case CheckSkipped => s.local.evRead
    case InvokePipe => s.local.evRead || s.local.evCustom
    case ReadPipe => true
    case pc => WillTest(pc, Async)
  }

  /** The first `n` messages will be executed in this turn. */
  predicate Sure(s: State, n: nat) { Cut(s, n) || Caught(s) || (Sent(s) && Reaching(s)) }

  /** The sender will write the pipe. */
  predicate Writing(pc: SenderPc) { pc.ClearSkipped? || pc.WritePipe? }

  ghost predicate SomeWriting(s: State) { exists t: Thread :: Writing(s.Pc(t)) }

  // ---------- bounds ----------

  /** What is fed are watchers that exist, and the scan is within its table. */
  ghost predicate Bounded(s: State)
  {
    && (forall g: Target :: g in s.local.fed ==> g.slot < s.cfg.Size(g.ch))
    && (s.loop.Scan? ==> s.loop.i <= s.cfg.Size(s.loop.ch))
  }

  function Slots(ch: Channel, n: nat): (r: set<Target>)
    ensures |r| <= n && forall g: Target :: g in r <==> g.ch == ch && g.slot < n
  {
    if n == 0 then {} else Slots(ch, n - 1) + {Target(ch, n - 1)}
  }

  lemma {:induction false} SubsetSize<T>(a: set<T>, b: set<T>)
    requires a <= b
    ensures |a| <= |b|
    decreases |a|
  {
    if x :| x in a { SubsetSize(a - {x}, b - {x}); }
  }

  lemma FedBound(s: State)
    requires Bounded(s)
    ensures |s.local.fed| <= s.cfg.nSig + s.cfg.nAsync
  {
    var all := Slots(Sig, s.cfg.nSig) + Slots(Async, s.cfg.nAsync);
    SubsetSize(s.local.fed, all);
  }

  /** A turn of the loop has no more steps, apart from handler calls. */
  function LongTurn(cfg: Config): nat { 16 + 15 * (cfg.nSig + cfg.nAsync) }

  function Left(s: State): nat { TurnLeft(s.cfg, s.loop, |s.local.fed|) }

  lemma LeftBound(s: State)
    requires Bounded(s) && LoopShape(s.cfg, s.loop, s.wake, s.local)
    ensures 1 <= Left(s) <= LongTurn(s.cfg)
  {
    FedBound(s);
  }

  lemma SenderKeepsBounded(s: State, t: Thread, job: Job)
    requires Bounded(s)
    ensures Bounded(SenderStep(s, t, job))
  {
  }

  lemma LoopKeepsBounded(s: State, c: Choice)
    requires Bounded(s) && Inv(s)
    ensures Bounded(LoopStep(s, c))
  {
    hide Noticed, MutexHeld, CountsQueue, SlotsExist, InOrder;
  }

  lemma LoopKeepsInv(s: State, c: Choice)
    requires Inv(s) && LoopEnabled(s, c)
    ensures Inv(LoopStep(s, c))
  {
    hide Inv;
    StepKeepsInv(s, ByLoop(c));
  }

  // ---------- a message remains announced ----------

  lemma SenderKeepsAnnounced(s: State, t: Thread, job: Job, n: nat)
    requires Announced(s, n)
    ensures Announced(SenderStep(s, t, job), n)
  {
  }

  lemma LoopKeepsAnnounced(s: State, c: Choice, n: nat)
    requires Inv(s) && LoopEnabled(s, c) && Announced(s, n) && n <= |s.post.accepted|
    ensures Announced(LoopStep(s, c), n)
  {
    hide Noticed, MutexHeld, CountsQueue, LoopShape, SlotsExist;
  }

  lemma SenderKeepsSure(s: State, t: Thread, job: Job, n: nat)
    requires Sure(s, n)
    ensures Sure(SenderStep(s, t, job), n)
  {
  }

  lemma LoopKeepsSure(s: State, c: Choice, n: nat)
    requires Inv(s) && LoopEnabled(s, c) && Sure(s, n) && n <= |s.post.accepted|
    ensures Sure(LoopStep(s, c), n)
  {
    hide Noticed, MutexHeld, CountsQueue, SlotsExist;
  }

  // ---------- the rank ----------

  /** Before the loop looks at `skipped` for the last time in its turn. */
  predicate Early(pc: LoopPc) { pc.SetWanted? || pc.TestSkipped? || pc.Poll? || pc.ClearWanted? || pc.CheckSkipped? }

  /** Steps of the loop until the first `n` messages have been executed: the handlers, the rest of the turn, and
      the turns until the loop tests the flag.  It will do so in the turn after the pipe has been written; the
      pipe will be written by a sender committed to it; `skipped` is seen at the latest in the turn after it was
      raised, unless such a sender takes it back. */
  ghost function Potential(s: State, n: nat): nat
    requires |s.post.executed| <= n
  {
    n - |s.post.executed| +
    if Sure(s, n) then Left(s)
    else if 0 < s.wake.pipe then LongTurn(s.cfg) + Left(s)
    else if SomeWriting(s) then 2 * LongTurn(s.cfg)
    else if s.wake.skipped then (if Early(s.loop) then 2 * LongTurn(s.cfg) else 3 * LongTurn(s.cfg)) + Left(s)
    else 5 * LongTurn(s.cfg)
  }

  /** What `Potential` is made of. */
  lemma PotentialIs(s: State, n: nat)
    requires |s.post.executed| <= n
    ensures Potential(s, n) == n - |s.post.executed| +
      if Sure(s, n) then Left(s)
      else if 0 < s.wake.pipe then LongTurn(s.cfg) + Left(s)
      else if SomeWriting(s) then 2 * LongTurn(s.cfg)
      else if s.wake.skipped then (if Early(s.loop) then 2 * LongTurn(s.cfg) else 3 * LongTurn(s.cfg)) + Left(s)
      else 5 * LongTurn(s.cfg)
  {
  }

  /** Only a sender that is about to write takes `skipped` back, and only the loop empties the pipe. */
  lemma SenderWakes(s: State, t: Thread, job: Job)
    requires s.cfg.Valid()
    ensures var s' := SenderStep(s, t, job);
      && s.wake.pipe <= s'.wake.pipe
      && (SomeWriting(s) ==> 0 < s'.wake.pipe || SomeWriting(s'))
      && (s.wake.skipped ==> s'.wake.skipped || SomeWriting(s'))
      && (s.wake.pipe == 0 < s'.wake.pipe ==> SomeWriting(s))
  {
    var s' := SenderStep(s, t, job);
    if u: Thread :| Writing(s.Pc(u)) { assert u != t ==> s'.Pc(u) == s.Pc(u); }
    assert Writing(s'.Pc(t)) || !Writing(s'.Pc(t));
    assert Writing(s.Pc(t)) || !Writing(s.Pc(t));
  }

  lemma SenderLeaves(s: State, t: Thread, job: Job)
    ensures var s' := SenderStep(s, t, job);
      s'.cfg == s.cfg && s'.loop == s.loop && s'.local == s.local && s'.post.executed == s.post.executed && Left(s') == Left(s)
  {
  }

  lemma InvLeft(s: State)
    requires Inv(s) && Bounded(s)
    ensures s.cfg.Valid() && 1 <= Left(s) <= LongTurn(s.cfg)
  {
    hide Noticed, Bounded, MutexHeld, CountsQueue, SlotsExist, InOrder, LongTurn, Left;
    LeftBound(s);
  }

  /** No step of a sender puts the messages off. */
  lemma SenderPotential(s: State, t: Thread, job: Job, n: nat)
    requires Inv(s) && Bounded(s) && |s.post.executed| <= n
    ensures SenderStep(s, t, job).post.executed == s.post.executed
    ensures Potential(SenderStep(s, t, job), n) <= Potential(s, n)
  {
    hide *;
    var s' := SenderStep(s, t, job);
    InvLeft(s);
    SenderWakes(s, t, job);
    SenderLeaves(s, t, job);
    if Sure(s, n) { SenderKeepsSure(s, t, job, n); }
    PotentialIs(s, n);
    PotentialIs(s', n);
  }

  // ---------- steps of the loop ----------

  /** A message that is not sure to be executed in this turn is announced by the flag. */
  lemma SentUnlessSure(s: State, n: nat)
    requires Announced(s, n) && !Sure(s, n)
    ensures Sent(s) && !Reaching(s)
  {
  }

  /** A step of the loop that does not make sure of the messages leaves the wake-up to come as it is. */
  lemma LoopWaits(s: State, c: Choice, n: nat)
    requires Sent(s) && !Reaching(s) && !Sure(LoopStep(s, c), n) && Announced(LoopStep(s, c), n)
    ensures var s' := LoopStep(s, c);
      && s'.wake.pipe == s.wake.pipe && s'.wake.skipped == s.wake.skipped && SomeWriting(s') == SomeWriting(s)
      && (s.wake.pipe > 0 ==> s'.loop != SetWanted || s.loop == SetWanted)
      && (s.wake.skipped && s.wake.pipe == 0 && Early(s.loop) ==> Early(s'.loop) && s'.loop != SetWanted)
      && (Early(s'.loop) ==> Early(s.loop) || s'.loop == SetWanted) && (s'.loop == SetWanted ==> Early(s'.loop))
  {
    var s' := LoopStep(s, c);
    assert forall u: Thread :: s'.Pc(u) == s.Pc(u);
    SentUnlessSure(s', n);
  }

  /** The turn gets shorter, or a handler runs, or the turn ends. */
  lemma LoopAdvances(s: State, c: Choice)
    requires Inv(s) && LoopEnabled(s, c)
    ensures var s' := LoopStep(s, c);
      && s'.cfg == s.cfg && |s.post.executed| <= |s'.post.executed| <= |s.post.executed| + 1
      && if s.loop.DrainRun? && s.post.batch != [] then
           |s'.post.executed| == |s.post.executed| + 1 && Left(s') == Left(s)
         else
           s'.post.executed == s.post.executed &&
           if s.loop.Dispatch? && s.local.fed == {} then s'.loop == SetWanted else Left(s') < Left(s)
  {
    if s.loop.DrainRun? && s.post.batch != [] {
    } else if s.loop.Dispatch? && s.local.fed == {} {
    } else if InPipecb(s.loop) {
      TurnShrinksInPipecb(s, c);
    } else {
      TurnShrinksElsewhere(s, c);
    }
  }

  /** The turn does not end while the messages are sure to be executed in it. */
  lemma NotYetOver(s: State, n: nat)
    requires Inv(s) && Sure(s, n) && |s.post.executed| < n
    ensures !(s.loop.Dispatch? && s.local.fed == {})
  {
  }

  /** A flag that the loop will not test in this turn has been noticed nevertheless. */
  lemma FlagWakes(s: State)
    requires Inv(s) && Sent(s) && !Reaching(s)
    ensures s.wake.skipped || 0 < s.wake.pipe || SomeWaking(s)
  {
    hide Shape;
    assert FlagNoticed(s, Async);
  }

  lemma WritingWakes(s: State)
    ensures SomeWriting(s) ==> SomeWaking(s)
  {
    if t: Thread :| Writing(s.Pc(t)) { assert Waking(s.Pc(t)); }
  }

  /** No step of the loop puts the messages off, and while no sender is about to wake the loop, every step
      brings them nearer. */
  lemma LoopPotential(s: State, c: Choice, n: nat)
    requires Inv(s) && Bounded(s) && LoopEnabled(s, c) && Announced(s, n) && |s.post.executed| < n <= |s.post.accepted|
    ensures |LoopStep(s, c).post.executed| <= n
    ensures Potential(LoopStep(s, c), n) <= Potential(s, n)
    ensures !SomeWaking(s) ==> Potential(LoopStep(s, c), n) < Potential(s, n)
  {
    hide *;
    var s' := LoopStep(s, c);
    LoopKeepsInv(s, c);
    LoopKeepsBounded(s, c);
    LoopKeepsAnnounced(s, c, n);
    InvLeft(s);
    InvLeft(s');
    LoopAdvances(s, c);
    PotentialIs(s, n);
    PotentialIs(s', n);
    if Sure(s, n) {
      LoopKeepsSure(s, c, n);
      NotYetOver(s, n);
    } else {
      SentUnlessSure(s, n);
      FlagWakes(s);
      WritingWakes(s);
      if !Sure(s', n) { LoopWaits(s, c, n); }
    }
  }

  // ---------- whole runs ----------

  /** The steps of the loop in a run during which no sender is about to wake it. */
  ghost function Counted(s: State, steps: seq<Step>): nat
    decreases |steps|
  {
    if steps == [] then 0
    else (if steps[0].ByLoop? && !SomeWaking(s) then 1 else 0) + Counted(Next(s, steps[0]), steps[1..])
  }

  lemma StepGrows(s: State, step: Step)
    ensures s.post.accepted <= Next(s, step).post.accepted && s.post.executed <= Next(s, step).post.executed
  {
  }

  lemma {:induction false} RunGrows(s: State, steps: seq<Step>)
    ensures s.post.accepted <= After(s, steps).post.accepted && s.post.executed <= After(s, steps).post.executed
    decreases |steps|
  {
    hide Next;
    if steps != [] {
      StepGrows(s, steps[0]);
      RunGrows(Next(s, steps[0]), steps[1..]);
    }
  }

  lemma StepKeepsBounded(s: State, step: Step)
    requires Inv(s) && Bounded(s)
    ensures Bounded(Next(s, step))
  {
    hide Inv, Bounded, SenderStep, LoopStep;
    match step
    case BySender(t, job) => SenderKeepsBounded(s, t, job);
    case ByLoop(c) => LoopKeepsBounded(s, c);
  }

  lemma {:induction false} RunKeepsBounded(s: State, steps: seq<Step>)
    requires Inv(s) && Bounded(s) && IsRun(s, steps)
    ensures Inv(After(s, steps)) && Bounded(After(s, steps))
    decreases |steps|
  {
    hide Inv, Bounded, Next, Enabled;
    if steps != [] {
      StepKeepsInv(s, steps[0]);
      StepKeepsBounded(s, steps[0]);
      RunKeepsBounded(Next(s, steps[0]), steps[1..]);
    }
  }

  lemma StepPotential(s: State, step: Step, n: nat)
    requires Inv(s) && Bounded(s) && Enabled(s, step) && Announced(s, n) && |s.post.executed| < n <= |s.post.accepted|
    ensures |Next(s, step).post.executed| <= n && Announced(Next(s, step), n)
    ensures Potential(Next(s, step), n) + (if step.ByLoop? && !SomeWaking(s) then 1 else 0) <= Potential(s, n)
  {
    hide Inv, Bounded, SenderStep, LoopStep, Announced, Potential, SenderEnabled, LoopEnabled, SomeWaking;
    match step
    case BySender(t, job) =>
      SenderPotential(s, t, job, n);
      SenderKeepsAnnounced(s, t, job, n);
    case ByLoop(c) =>
      LoopPotential(s, c, n);
      LoopKeepsAnnounced(s, c, n);
  }

  /** Every counted step brings announced messages nearer until they have been executed. */
  lemma {:induction false} RunPotential(s: State, steps: seq<Step>, n: nat)
    requires Inv(s) && Bounded(s) && IsRun(s, steps) && Announced(s, n) && |s.post.executed| < n <= |s.post.accepted|
    ensures |After(s, steps).post.executed| < n ==> Potential(After(s, steps), n) + Counted(s, steps) <= Potential(s, n)
    decreases |steps|
  {
    hide Inv, Bounded, Next, Enabled, Announced, Potential, SomeWaking;
    if steps != [] {
      var s' := Next(s, steps[0]);
      StepKeepsInv(s, steps[0]);
      StepKeepsBounded(s, steps[0]);
      StepPotential(s, steps[0], n);
      StepGrows(s, steps[0]);
      if |s'.post.executed| < n {
        RunPotential(s', steps[1..], n);
      } else {
        RunGrows(s', steps[1..]);
      }
    }
  }

  lemma PotentialBound(s: State, n: nat)
    requires Inv(s) && Bounded(s) && |s.post.executed| <= n
    ensures n - |s.post.executed| <= Potential(s, n) <= n - |s.post.executed| + 5 * LongTurn(s.cfg)
  {
    hide *;
    InvLeft(s);
    PotentialIs(s, n);
  }

  /** Announced messages are executed within a known number of counted steps, whatever the senders do. */
  lemma AnnouncedRuns(s: State, steps: seq<Step>, n: nat)
    requires Inv(s) && Bounded(s) && IsRun(s, steps) && Announced(s, n) && n <= |s.post.accepted|
    requires Counted(s, steps) >= 5 * LongTurn(s.cfg) + (n - |s.post.executed|)
    ensures |After(s, steps).post.executed| >= n
  {
    hide *;
    RunGrows(s, steps);
    if |s.post.executed| < n {
      RunKeepsBounded(s, steps);
      RunPotential(s, steps, n);
      PotentialBound(s, n);
      if |After(s, steps).post.executed| < n { PotentialBound(After(s, steps), n); }
    }
  }

  // ---------- the message of a call ----------

  /** The first `n` messages are announced, or thread `t` is about to do it. */
  predicate Owed(s: State, t: Thread, n: nat)
  {
    || Announced(s, n)
    || Announcing(s.Pc(t), s.cfg.Noti())
    || (Flagging(s.Pc(t), Async) && s.cfg.Noti() in s.wake.slots)
  }

  lemma StepKeepsOwed(s: State, step: Step, t: Thread, n: nat)
    requires Inv(s) && Enabled(s, step) && Owed(s, t, n) && n <= |s.post.accepted|
    ensures Owed(Next(s, step), t, n)
  {
    hide Inv, Announced, SenderEnabled, LoopEnabled;
    match step
    case BySender(u, job) =>
      if Announced(s, n) { SenderKeepsAnnounced(s, u, job, n); } else { SenderKeepsOwed(s, u, job, t, n); }
    case ByLoop(c) =>
      if Announced(s, n) { LoopKeepsAnnounced(s, c, n); } else { LoopKeepsOwed(s, c, t, n); }
  }

  lemma SenderKeepsOwed(s: State, u: Thread, job: Job, t: Thread, n: nat)
    requires !Announced(s, n) && Owed(s, t, n)
    ensures Owed(SenderStep(s, u, job), t, n)
  {
    var s' := SenderStep(s, u, job);
    assert u != t ==> s'.Pc(t) == s.Pc(t);
  }

  lemma LoopKeepsOwed(s: State, c: Choice, t: Thread, n: nat)
    requires !Announced(s, n) && Owed(s, t, n)
    ensures Owed(LoopStep(s, c), t, n)
  {
    assert LoopStep(s, c).Pc(t) == s.Pc(t);
  }

  lemma {:induction false} RunKeepsOwed(s: State, steps: seq<Step>, t: Thread, n: nat)
    requires Inv(s) && IsRun(s, steps) && Owed(s, t, n) && n <= |s.post.accepted|
    ensures Owed(After(s, steps), t, n)
    decreases |steps|
  {
    hide Inv, Next, Enabled, Owed;
    if steps != [] {
      StepKeepsInv(s, steps[0]);
      StepKeepsOwed(s, steps[0], t, n);
      StepGrows(s, steps[0]);
      RunKeepsOwed(Next(s, steps[0]), steps[1..], t, n);
    }
  }

  lemma IdleOwesNothing(s: State, t: Thread, n: nat)
    requires Owed(s, t, n) && s.Pc(t) == Idle
    ensures Announced(s, n)
  {
  }

  lemma Appended(s: State, t: Thread, job: Job, m: Msg)
    requires s.Pc(t) == Append(m)
    ensures var s' := SenderStep(s, t, job);
      s'.cfg == s.cfg && s'.post.accepted == s.post.accepted + [m] && forall n :: Owed(s', t, n)
  {
  }

  /** When `task_notify` has returned, its message and all before it are announced. */
  lemma ReturnedIsAnnounced(s: State, call: seq<Step>, t: Thread, m: Msg)
    requires Inv(s) && s.Pc(t) == Append(m) && call != [] && call[0].BySender? && call[0].t == t && IsRun(s, call)
    requires After(s, call).Pc(t) == Idle
    ensures Announced(After(s, call), |s.post.accepted| + 1) && s.post.accepted + [m] <= After(s, call).post.accepted
  {
    hide Inv, Announced, Owed, Enabled, SenderStep;
    var n, s' := |s.post.accepted| + 1, Next(s, call[0]);
    StepKeepsInv(s, call[0]);
    Appended(s, t, call[0].job, m);
    RunKeepsOwed(s', call[1..], t, n);
    RunGrows(s', call[1..]);
    IdleOwesNothing(After(s, call), t, n);
  }

  lemma {:induction false} AfterConfig(s: State, steps: seq<Step>)
    ensures After(s, steps).cfg == s.cfg
    decreases |steps|
  {
    if steps != [] { AfterConfig(Next(s, steps[0]), steps[1..]); }
  }

  lemma InitBounded(cfg: Config)
    requires cfg.Valid()
    ensures Inv(Init(cfg)) && Bounded(Init(cfg))
  {
    ReachableInv(cfg, []);
  }

  /** Every message whose `task_notify` has returned is executed, in its place in the global order: in every
      run, thread `t` appends `m`, its call returns after the steps `call`, and then the loop takes so many
      counted steps among those of the senders. */
  lemma NotifiedMessageRuns(cfg: Config, before: seq<Step>, call: seq<Step>, later: seq<Step>, t: Thread, m: Msg)
    requires cfg.Valid() && IsRun(Init(cfg), before)
    requires After(Init(cfg), before).Pc(t) == Append(m) && call != [] && call[0].BySender? && call[0].t == t
    requires IsRun(After(Init(cfg), before), call)
    requires var s := After(After(Init(cfg), before), call);
      && s.Pc(t) == Idle && IsRun(s, later)
      && Counted(s, later) >= 5 * LongTurn(cfg) + |After(Init(cfg), before).post.accepted| + 1 - |s.post.executed|
    ensures var n := |After(Init(cfg), before).post.accepted|;
      var p := After(After(After(Init(cfg), before), call), later).post;
      n < |p.executed| && p.executed[n] == m
  {
    hide *;
    InitBounded(cfg);
    var s0 := After(Init(cfg), before);
    RunKeepsBounded(Init(cfg), before);
    var s := After(s0, call);
    RunKeepsBounded(s0, call);
    ReturnedIsAnnounced(s0, call, t, m);
    InitConfig(cfg);
    AfterConfig(Init(cfg), before);
    AfterConfig(s0, call);
    AnnouncedRuns(s, later, |s0.post.accepted| + 1);
    RunGrows(s, later);
    RunKeepsBounded(s, later);
    ExecutedFirst(After(s, later));
  }

  lemma InitConfig(cfg: Config)
    ensures Init(cfg).cfg == cfg
  {
  }

  lemma ExecutedFirst(s: State)
    requires Inv(s)
    ensures s.post.executed <= s.post.accepted
  {
  }

  /** Nor is the loop blocked before that, unless a sender is inside `evpipe_write` or holds the mutex. */
  lemma NeverBlocked(s: State, n: nat)
    requires Inv(s) && Announced(s, n) && |s.post.executed| < n
    requires forall t: Thread :: !InEvpipeWrite(s.Pc(t)) && !InCriticalSection(s.Pc(t))
    ensures exists c: Choice :: !c.other && LoopEnabled(s, c)
  {
    assert FlagNoticed(s, Async) && SkipIsTransient(s);
    assert forall t: Thread :: Waking(s.Pc(t)) || Retracting(s.Pc(t)) ==> InEvpipeWrite(s.Pc(t));
    var pick :| s.local.fed != {} ==> pick in s.local.fed;
    assert LoopEnabled(s, Choice(false, false, pick));
  }
}

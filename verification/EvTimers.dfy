/** Timers of an event loop: start, stop, restart, and the expiry pass. */
module EvTimers {
  import opened EvHeap
  import opened EvPending

  function Max(a: real, b: real): real { if a < b then b else a }

  class Loop {
    const timers: TimedHeap
    const pend: PendingStacks
    var mnNow: real
    var activecnt: int
    var rfeeds: seq<Watcher>
    ghost const ws: set<Watcher>      // every watcher of this loop

    /** The heap holds exactly the active timers. */
    ghost predicate TimersOk()
      reads timers`slots, timers`cnt, timers`members, timers.slots, timers.members`active, timers.members`at, ws`active
    {
      && timers.Ok()
      && (forall u :: u in timers.members ==> u in ws && u.timer)
      && (forall u :: u in ws && u.timer && u !in timers.members ==> u.active == 0)
    }

    /** How many of the watchers counted as active are not timers. */
    ghost function OthersActive(): int
      reads `activecnt, timers`members
    {
      activecnt - |timers.members|
    }

    /** Changes elsewhere do not concern the timers. */
    twostate lemma TimersUnconcerned()
      requires old(TimersOk()) && unchanged(timers) && unchanged(timers.slots)
      requires forall u :: u in ws ==> u.active == old(u.active) && u.at == old(u.at)
      ensures TimersOk()
    {
    }

    constructor (ghost universe: set<Watcher>, now: real)
      requires forall u :: u in universe ==> u.active == 0 && u.pending == 0
      ensures ws == universe && mnNow == now && activecnt == 0 && rfeeds == []
      ensures fresh(timers) && fresh(timers.slots) && fresh(pend) && pend.ws == universe
      ensures TimersOk() && timers.members == {} && pend.Ok() && pend.Model() == [[], [], [], [], []]
    {
      timers := new TimedHeap();
      pend := new PendingStacks(universe);
      ws, mnNow, activecnt, rfeeds := universe, now, 0, [];
    }

    /** ev_start: clamps the priority, marks the watcher active and references the loop. */
    method Start(w: Watcher, active: nat)
      modifies this`activecnt, w`priority, w`active
      ensures w.active == active && activecnt == old(activecnt) + 1 && Clamped(old(w.priority), w.priority)
    {
      w.priority := if w.priority < MINPRI then MINPRI else w.priority;
      w.priority := if w.priority > MAXPRI then MAXPRI else w.priority;
      w.active := active;
      activecnt := activecnt + 1;
    }

    /** ev_stop */
    method Stop(w: Watcher)
      modifies this`activecnt, w`active
      ensures w.active == 0 && activecnt == old(activecnt) - 1
    {
      activecnt := activecnt - 1;
      w.active := 0;
    }

    /** ev_timer_start */
    method TimerStart(w: Watcher)
      requires TimersOk() && w in ws && w.timer
      requires w.active == 0 ==> w.repeat_ >= 0.0
      modifies this`activecnt, timers, timers.slots, timers.members`active, w`active, w`at, w`priority
      ensures TimersOk() && (timers.slots == old(timers.slots) || fresh(timers.slots))
      ensures old(w.active) != 0 ==>
        && timers.members == old(timers.members) && activecnt == old(activecnt)
        && w.at == old(w.at) && w.priority == old(w.priority)
      ensures old(w.active) == 0 ==>
        && timers.members == old(timers.members) + {w} && activecnt == old(activecnt) + 1
        && w.at == old(w.at) + mnNow && Clamped(old(w.priority), w.priority)
    {
      hide Ordered, SlotsOk, LiveAll;
      if w.active != 0 { return; }
      assert w !in timers.members;
      w.at := w.at + mnNow;
      Start(w, timers.cnt + HEAP0);
      timers.Add(w);
    }

    /** ev_timer_stop after clear_pending, for an active timer. */
    method Deactivate(w: Watcher)
      requires TimersOk() && w in timers.members
      modifies this`activecnt, timers, timers.slots, timers.members`active, w`at
      ensures TimersOk() && timers.slots == old(timers.slots)
      ensures timers.members == old(timers.members) - {w} && w.active == 0
      ensures w.at == old(w.at) - mnNow && activecnt == old(activecnt) - 1
    {
      timers.RemoveAt(w.active);
      w.at := w.at - mnNow;
      Stop(w);
    }

    /** ev_timer_stop */
    method TimerStop(w: Watcher)
      requires TimersOk() && pend.ws == ws && pend.Ok() && w in ws && w.timer
      modifies this`activecnt, timers, timers.slots, timers.members`active, w`at, pend`stacks, w`pending
      ensures TimersOk() && pend.Ok() && w.active == 0 && w.pending == 0
      ensures timers.slots == old(timers.slots) && timers.members == old(timers.members) - {w}
      ensures old(w.active) == 0 ==> w.at == old(w.at) && activecnt == old(activecnt)
      ensures old(w.active) != 0 ==> w.at == old(w.at) - mnNow && activecnt == old(activecnt) - 1
      ensures 0 <= Pri(w) < NUMPRI ==> pend.Model() == Apply(old(pend.Model()), Clear(w, Pri(w)))
    {
      pend.ClearPending(w);
      if w.active == 0 { return; }
      label cleared:
      Deactivate(w);
      pend.Unconcerned@cleared();
    }

    /** The rearming half of ev_timer_again, for an active timer. */
    method Rearm(w: Watcher)
      requires TimersOk() && w in timers.members
      modifies timers.slots, timers.members`active, w`at
      ensures TimersOk() && timers.members == old(timers.members) && timers.cnt == old(timers.cnt)
      ensures w.at == mnNow + w.repeat_
    {
      w.at := mnNow + w.repeat_;
      timers.Recache(w.active);
    }

    /** The time of a timer that is not active does not matter. */
    twostate lemma IdleUnconcerned(w: Watcher)
      requires old(TimersOk()) && unchanged(timers) && unchanged(timers.slots) && w !in timers.members
      requires forall u :: u in ws ==> u.active == old(u.active) && (u != w ==> u.at == old(u.at))
      ensures TimersOk()
    {
    }

    lemma ActiveIsMember(w: Watcher)
      requires TimersOk() && w in ws && w.timer
      ensures w.active != 0 <==> w in timers.members
    {
    }

    /** ev_timer_again */
    method TimerAgain(w: Watcher)
      requires TimersOk() && pend.ws == ws && pend.Ok() && w in ws && w.timer && w.repeat_ >= 0.0
      modifies this`activecnt, timers, timers.slots, timers.members`active, w`active, w`at, w`priority, pend`stacks, w`pending
      ensures TimersOk() && pend.Ok() && w.pending == 0
      ensures timers.slots == old(timers.slots) || fresh(timers.slots)
      ensures w.repeat_ != 0.0 ==> timers.members == old(timers.members) + {w} && w.at == mnNow + w.repeat_
      ensures w.repeat_ == 0.0 ==> timers.members == old(timers.members) - {w}
      ensures w.repeat_ == 0.0 ==> w.at == old(w.at) - (if old(w.active) != 0 then mnNow else 0.0)
      ensures activecnt - old(activecnt) ==
        if w.repeat_ != 0.0 && old(w.active) == 0 then 1 else if w.repeat_ == 0.0 && old(w.active) != 0 then -1 else 0
      ensures if w.repeat_ != 0.0 && old(w.active) == 0 then Clamped(old(w.priority), w.priority) else w.priority == old(w.priority)
    {
      hide TimersOk, SlotsOk;
      pend.ClearPending(w);
      TimersUnconcerned();
      ActiveIsMember(w);
      label cleared:
      if w.active != 0 {
        if w.repeat_ != 0.0 {
          Rearm(w);
          pend.Unconcerned@cleared();
        } else {
          Deactivate(w);
          pend.Unconcerned@cleared();
        }
      } else if w.repeat_ != 0.0 {
        w.at := w.repeat_;
        IdleUnconcerned@cleared(w);
        TimerStart(w);
        pend.Unconcerned@cleared();
      }
    }

    // ---------- expiry ----------

    /** What ev_timer_start sees to: a repeat time that is not negative and a clamped priority. */
    ghost predicate InBand(s: set<Watcher>)
      reads s`repeat_, s`priority
    {
      forall u :: u in s ==> u.repeat_ >= 0.0 && 0 <= Pri(u) < NUMPRI
    }

    /** The timer at the root of the heap is (one of) the next to expire. */
    lemma RootIsNext()
      requires TimersOk() && timers.cnt > 0
      ensures HEAP0 < timers.slots.Length
      ensures var w := timers.slots[HEAP0].w;
        && w in timers.members && w.at == timers.slots[HEAP0].at && w.active == HEAP0 && w in ws && w.timer
        && forall u :: u in timers.members ==> w.at <= u.at
    {
      forall u | u in timers.members ensures timers.slots[HEAP0].at <= u.at {
        RootIsLeast(timers.slots[..], timers.cnt, u.active);
      }
    }

    /** Reschedules the repeating timer `w` at the root of the heap. */
    method Reschedule(w: Watcher)
      requires TimersOk() && timers.cnt > 0 && w == timers.slots[HEAP0].w && w.repeat_ > 0.0
      modifies timers.slots, timers.members`active, w`at
      ensures TimersOk() && timers.members == old(timers.members)
      ensures w.at == Max(old(w.at) + w.repeat_, mnNow)
    {
      hide Ordered, SlotsOk, LiveAll;
      RootIsNext();
      w.at := w.at + w.repeat_;
      if w.at < mnNow { w.at := mnNow; }
      timers.SinkRoot();
    }

    /** One round of the expiry pass: the root timer is rescheduled or stopped. */
    method ExpireRoot() returns (w: Watcher)
      requires TimersOk() && pend.ws == ws && pend.Ok() && timers.cnt > 0
      requires timers.slots[HEAP0].w.repeat_ >= 0.0
      modifies this`activecnt, timers, timers.slots, timers.members`active, timers.members`at, timers.members`pending, pend`stacks
      ensures TimersOk() && pend.Ok() && w == old(timers.slots[HEAP0].w)
      ensures OthersActive() == old(OthersActive())
      ensures timers.slots == old(timers.slots)
      ensures forall u :: u in old(timers.members) && u != w ==> u.at == old(u.at) && u.pending == old(u.pending)
      ensures w.repeat_ != 0.0 ==> timers.members == old(timers.members) && w.pending == old(w.pending)
                                   && w.at == Max(old(w.at) + w.repeat_, mnNow)
      ensures w.repeat_ == 0.0 ==> timers.members == old(timers.members) - {w} && w.pending == 0
                                   && w.at == old(w.at) - mnNow
      ensures w.repeat_ != 0.0 ==> pend.Model() == old(pend.Model())
      ensures w.repeat_ == 0.0 && 0 <= Pri(w) < NUMPRI ==> pend.Model() == Apply(old(pend.Model()), Clear(w, Pri(w)))
    {
      hide TimersOk, SlotsOk, LiveAll, Apply;
      RootIsNext();
      w := timers.slots[HEAP0].w;
      if w.repeat_ != 0.0 {
        Reschedule(w);
        pend.Unconcerned();
      } else {
        TimerStop(w);
      }
    }

    /** feed_reverse_done for the watcher `w` queued last. */
    method FeedLast(revents: Events, ghost w: Watcher)
      requires pend.ws == ws && pend.Ok() && rfeeds != []
      requires w == rfeeds[|rfeeds| - 1] && w in ws && 0 <= Pri(w) < NUMPRI
      modifies this`rfeeds, pend`stacks, pend`pendingpri, w`pending
      ensures pend.Ok() && rfeeds == old(rfeeds)[..|old(rfeeds)| - 1]
      ensures pend.Model() == Apply(old(pend.Model()), Feed(w, Pri(w), revents))
      ensures w.pending != 0 && (old(w.pending) != 0 ==> w.pending == old(w.pending))
      ensures old(w.pending) == 0 ==> forall u :: u in ws && u != w && Pri(u) == Pri(w) ==> u.pending < w.pending
    {
      var last := rfeeds[|rfeeds| - 1];
      rfeeds := rfeeds[..|rfeeds| - 1];
      pend.FeedOnTop(last, revents);
    }

    /** From index `from` on, the watchers of `f` that were `idle` lie on their stacks in the order of
        `f`, the first on top. */
    ghost predicate Stacked(f: seq<Watcher>, from: int, idle: set<Watcher>)
      reads f`pending, f`priority
    {
      forall i, j :: 0 <= from <= i < j < |f| && f[i] in idle && f[j] in idle && Pri(f[i]) == Pri(f[j])
        ==> f[j].pending < f[i].pending
    }

    /** What is known of `f` when its watchers from index `k` on have been fed. */
    ghost predicate FedFrom(f: seq<Watcher>, k: int, idle: set<Watcher>)
      reads f`pending, f`priority
    {
      && (forall i :: 0 <= i < |f| ==> (f[i].pending == 0 <==> f[i] in idle && i < k))
      && Stacked(f, k, idle)
    }

    ghost predicate Feedable(f: seq<Watcher>)
      reads f`priority
    {
      && (forall i :: 0 <= i < |f| ==> f[i] in ws && 0 <= Pri(f[i]) < NUMPRI)
      && (forall i, j :: 0 <= i < j < |f| ==> f[i] != f[j])
    }

    /** The watchers of `f`, fed from the last to the first. */
    ghost predicate FeedsReversed(ops: seq<Op>, f: seq<Watcher>, revents: Events)
      reads f`priority
    {
      && |ops| == |f|
      && (forall i :: 0 <= i < |f| ==> ops[i] == Feed(f[|f| - 1 - i], Pri(f[|f| - 1 - i]), revents))
      && InRange(ops)
    }

    /** Of the watchers of `f` just those in `idle` are not pending; the others are where they `was`. */
    ghost predicate IdleNow(f: seq<Watcher>, idle: set<Watcher>, was: map<Watcher, nat>)
      reads f`pending
    {
      && (forall i :: 0 <= i < |f| ==> (f[i] in idle <==> f[i].pending == 0))
      && (forall u :: u in f && u !in idle ==> u in was && u.pending == was[u])
    }

    /** The watchers of the batch from index `k` on have been fed, which leaves the last `k` of its
        operations to do. */
    ghost predicate Feeding(b: Batch, k: int)
      requires InRange(b.ops)
      reads pend`stacks, b.f`pending, b.f`priority
    {
      && 0 <= k <= |b.f| == |b.ops|
      && FedFrom(b.f, k, b.idle)
      && (forall u :: u in b.f && u !in b.idle ==> u in b.was && u.pending == b.was[u])
      && ApplyAll(pend.Model(), b.ops[|b.f| - k..]) == b.goal
    }

    twostate lemma FedFromStep(b: Batch, new k: int)
      requires 0 < k <= |b.f| && old(FedFrom(b.f, k, b.idle))
      requires forall i, j :: 0 <= i < j < |b.f| ==> b.f[i] != b.f[j]
      requires forall u :: u in b.f ==> u.priority == old(u.priority)
      requires forall u :: u in b.f && u != b.f[k - 1] ==> u.pending == old(u.pending)
      requires b.f[k - 1].pending != 0
      requires old(b.f[k - 1].pending) != 0 ==> b.f[k - 1].pending == old(b.f[k - 1].pending)
      requires old(b.f[k - 1].pending) == 0 ==>
        forall u :: u in b.f && u != b.f[k - 1] && Pri(u) == Pri(b.f[k - 1]) ==> u.pending < b.f[k - 1].pending
      ensures FedFrom(b.f, k - 1, b.idle)
    {
      var f := b.f;
      forall i, j | 0 <= k - 1 <= i < j < |f| && f[i] in b.idle && f[j] in b.idle && Pri(f[i]) == Pri(f[j])
        ensures f[j].pending < f[i].pending
      {
        if i >= k { assert old(f[j].pending) < old(f[i].pending); }
      }
    }

    /** Feeding the last watcher that was left to feed. */
    twostate lemma FeedingStep(b: Batch, new k: int, new revents: Events)
      requires old(Feedable(b.f) && FeedsReversed(b.ops, b.f, revents))
      requires 0 < k <= |b.f| && old(Feeding(b, k))
      requires forall u :: u in b.f ==> u.priority == old(u.priority)
      requires forall u :: u in b.f && u != b.f[k - 1] ==> u.pending == old(u.pending)
      requires pend.Model() == Apply(old(pend.Model()), b.ops[|b.f| - k])
      requires b.f[k - 1].pending != 0
      requires old(b.f[k - 1].pending) != 0 ==> b.f[k - 1].pending == old(b.f[k - 1].pending)
      requires old(b.f[k - 1].pending) == 0 ==>
        forall u :: u in b.f && u != b.f[k - 1] && Pri(u) == Pri(b.f[k - 1]) ==> u.pending < b.f[k - 1].pending
      ensures Feedable(b.f) && FeedsReversed(b.ops, b.f, revents) && Feeding(b, k - 1)
    {
      hide LiveAll, Apply, SlotsOk, Stacked;
      assert b.ops[|b.f| - k..][1..] == b.ops[|b.f| - (k - 1)..];
      FedFromStep(b, k);
    }

    /** One round of feed_reverse_done. */
    method FeedRound(revents: Events, ghost b: Batch, ghost k: nat)
      requires pend.ws == ws && pend.Ok() && 0 < k <= |b.f| && rfeeds == b.f[..k]
      requires Feedable(b.f) && FeedsReversed(b.ops, b.f, revents) && Feeding(b, k)
      modifies this`rfeeds, pend`stacks, pend`pendingpri, b.f`pending
      ensures pend.Ok() && rfeeds == b.f[..k - 1] && Feeding(b, k - 1)
      ensures Feedable(b.f) && FeedsReversed(b.ops, b.f, revents)
    {
      hide SlotsOk, LiveAll, Apply, FedFrom, Stacked, Feeding;
      assert rfeeds[|rfeeds| - 1] == b.f[k - 1];
      FeedLast(revents, b.f[k - 1]);
      FeedingStep(b, k, revents);
    }

    lemma FeedingStart(b: Batch)
      requires |b.ops| == |b.f| && InRange(b.ops) && IdleNow(b.f, b.idle, b.was) && b.goal == ApplyAll(pend.Model(), b.ops)
      ensures Feeding(b, |b.f|)
    {
      assert b.ops[0..] == b.ops;
    }

    /** feed_reverse_done: the watchers queued last are fed first. */
    method FeedReverseDone(revents: Events, ghost b: Batch)
      requires pend.ws == ws && pend.Ok() && rfeeds == b.f && b.f != []
      requires Feedable(b.f) && FeedsReversed(b.ops, b.f, revents) && Feeding(b, |b.f|)
      modifies this`rfeeds, pend`stacks, pend`pendingpri, b.f`pending
      ensures pend.Ok() && rfeeds == [] && Feeding(b, 0) && FeedsReversed(b.ops, b.f, revents)
    {
      hide Feedable, Feeding, SlotsOk;
      ghost var k := |rfeeds|;
      while true
        invariant pend.Ok() && 0 < k <= |b.f| && rfeeds == b.f[..k]
        invariant Feedable(b.f) && FeedsReversed(b.ops, b.f, revents) && Feeding(b, k)
        decreases k
      {
        FeedRound(revents, b, k);
        k := k - 1;
        if rfeeds == [] { return; }
      }
    }

    /** What becomes of a timer that expired at `due`. */
    ghost predicate Handled(w: Watcher, due: real)
      reads `mnNow, timers`members, w`at, w`repeat_
    {
      if w.repeat_ != 0.0 then w in timers.members && w.at == Max(due + w.repeat_, mnNow)
      else w !in timers.members && w.at == due - mnNow
    }

    /** The state of the loop when the expiry pass has got as far as `p`. */
    ghost predicate Passed(p: Pass)
      reads `mnNow, timers`members, p.at0.Keys`at, p.at0.Keys`repeat_
    {
      && p.InOrder(mnNow) && timers.members <= p.at0.Keys
      && (forall u :: u in p.at0 && u !in p.f ==> u in timers.members && u.at == p.at0[u])
      && (forall i :: 0 <= i < |p.f| ==> Handled(p.f[i], p.at0[p.f[i]]))
    }

    /** The root timer has not been handled yet, and none of the others that have not is due before it. */
    lemma RootIsLeft(p: Pass)
      requires TimersOk() && timers.cnt > 0 && timers.slots[HEAP0].at < mnNow && Passed(p)
      ensures var w := timers.slots[HEAP0].w;
        w in p.left && w !in p.f && p.at0[w] == w.at && forall u :: u in p.at0 && u !in p.f ==> p.at0[w] <= p.at0[u]
    {
      RootIsNext();
      var w := timers.slots[HEAP0].w;
      forall i | 0 <= i < |p.f| ensures p.f[i] != w {
        assert Handled(p.f[i], p.at0[p.f[i]]);
      }
    }

    /** What was handled before is not touched by the handling of `w`. */
    twostate lemma HandledKept(p: Pass, new w: Watcher)
      requires old(Passed(p)) && mnNow == old(mnNow) && w !in p.f
      requires forall u :: u in p.at0 && u != w ==> u.at == old(u.at)
      requires forall u :: u in p.at0 ==> u.repeat_ == old(u.repeat_)
      requires timers.members == old(timers.members) || timers.members == old(timers.members) - {w}
      ensures forall i :: 0 <= i < |p.f| ==> Handled(p.f[i], p.at0[p.f[i]])
    {
      forall i | 0 <= i < |p.f| ensures Handled(p.f[i], p.at0[p.f[i]]) {
        assert old(Handled(p.f[i], p.at0[p.f[i]]));
      }
    }

    /** Handling `w` next continues the pass. */
    twostate lemma PassedStep(p: Pass, new w: Watcher)
      requires old(Passed(p)) && mnNow == old(mnNow)
      requires w in p.left && w !in p.f && p.at0[w] < mnNow
      requires forall u :: u in p.at0 && u !in p.f ==> p.at0[w] <= p.at0[u]
      requires forall u :: u in p.at0 && u != w ==> u.at == old(u.at)
      requires forall u :: u in p.at0 ==> u.repeat_ == old(u.repeat_)
      requires timers.members == old(timers.members) || timers.members == old(timers.members) - {w}
      requires Handled(w, p.at0[w])
      ensures Passed(p.Next(w))
    {
      hide Handled, Pass.InOrder;
      var g := p.f + [w];
      HandledKept(p, w);
      p.NextInOrder(mnNow, w);
      forall u | u in p.at0 && u !in g ensures u !in p.f && u != w {
        assert g[|p.f|] == w;
      }
    }

    /** Expires the root timer: it alone changes. */
    method ExpireNext(ghost all: set<Watcher>) returns (w: Watcher)
      requires TimersOk() && pend.ws == ws && pend.Ok() && timers.cnt > 0 && timers.members <= all
      requires timers.slots[HEAP0].w.repeat_ >= 0.0
      modifies this`activecnt, timers, timers.slots, all`active, all`at, all`pending, pend`stacks
      ensures TimersOk() && pend.Ok() && timers.slots == old(timers.slots) && w == old(timers.slots[HEAP0].w)
      ensures timers.members == old(timers.members) || timers.members == old(timers.members) - {w}
      ensures OthersActive() == old(OthersActive())
      ensures w in all && Handled(w, old(w.at)) && forall u :: u in all && u != w ==> u.at == old(u.at)
      ensures forall u :: u in all ==> u.repeat_ == old(u.repeat_) && Pri(u) == old(Pri(u))
      ensures forall u :: u in all && u != w ==> u.pending == old(u.pending)
      ensures w.pending == if w.repeat_ == 0.0 then 0 else old(w.pending)
      ensures w.repeat_ != 0.0 ==> pend.Model() == old(pend.Model())
      ensures w.repeat_ == 0.0 && 0 <= Pri(w) < NUMPRI ==> pend.Model() == Apply(old(pend.Model()), Clear(w, Pri(w)))
    {
      RootIsNext();
      w := ExpireRoot();
    }

    twostate lemma StillInBand(s: set<Watcher>)
      requires old(InBand(s)) && forall u :: u in s ==> u.repeat_ == old(u.repeat_) && Pri(u) == old(Pri(u))
      ensures InBand(s)
    {
    }

    /** One round of timers_reify. */
    method ExpiryRound(ghost p: Pass) returns (w: Watcher)
      requires TimersOk() && pend.ws == ws && pend.Ok() && timers.cnt > 0 && timers.slots[HEAP0].at < mnNow
      requires Passed(p) && InBand(p.at0.Keys)
      modifies this`activecnt, timers, timers.slots, p.at0.Keys`active, p.at0.Keys`at, p.at0.Keys`pending, pend`stacks
      ensures TimersOk() && pend.Ok() && timers.slots == old(timers.slots)
      ensures OthersActive() == old(OthersActive())
      ensures w in p.left && w !in p.f && Passed(p.Next(w)) && InBand(p.at0.Keys)
      ensures forall u :: u in p.at0 ==> u.repeat_ == old(u.repeat_)
      ensures forall u :: u in p.at0 && u != w ==> u.pending == old(u.pending)
      ensures w.pending == if w.repeat_ == 0.0 then 0 else old(w.pending)
      ensures w.repeat_ != 0.0 ==> pend.Model() == old(pend.Model())
      ensures w.repeat_ == 0.0 && 0 <= Pri(w) < NUMPRI ==> pend.Model() == Apply(old(pend.Model()), Clear(w, Pri(w)))
    {
      RootIsLeft(p);
      w := ExpireNext(p.at0.Keys);
      PassedStep(p, w);
      StillInBand(p.at0.Keys);
    }

    /** What the pass over `c.f` did to the stacks: timers that do not repeat were cleared, nothing else. */
    ghost predicate Cleared(c: Clearing)
      reads pend`stacks, c.was.Keys`pending, c.was.Keys`repeat_
    {
      && (forall u :: u in c.was ==> u.pending == if u in c.f && u.repeat_ == 0.0 then 0 else c.was[u])
      && (forall op :: op in c.clears ==> op.Clear? && op.w in c.f && op.w in c.was && op.w.repeat_ == 0.0)
      && InRange(c.clears) && pend.Model() == ApplyAll(c.m0, c.clears)
    }

    twostate lemma ClearedStep(c: Clearing, new w: Watcher, new d: Clearing)
      requires old(Cleared(c))
      requires w in c.was && w !in c.f && 0 <= Pri(w) < NUMPRI
      requires forall u :: u in c.was && u != w ==> u.pending == old(u.pending)
      requires forall u :: u in c.was ==> u.repeat_ == old(u.repeat_)
      requires w.pending == if w.repeat_ == 0.0 then 0 else c.was[w]
      requires d == c.(f := c.f + [w], clears := if w.repeat_ == 0.0 then c.clears + [Clear(w, Pri(w))] else c.clears)
      requires w.repeat_ == 0.0 ==> pend.Model() == Apply(old(pend.Model()), Clear(w, Pri(w)))
      requires w.repeat_ != 0.0 ==> pend.Model() == old(pend.Model())
      ensures Cleared(d)
    {
      if w.repeat_ == 0.0 {
        ApplyAllAppend(c.m0, c.clears, [Clear(w, Pri(w))]);
        assert ApplyAll(old(pend.Model()), [Clear(w, Pri(w))]) == pend.Model();
      }
    }

    /** A round of the loop, and what it does to the stacks. */
    method ExpireTracked(ghost p: Pass, ghost c: Clearing) returns (w: Watcher, ghost d: Clearing)
      requires TimersOk() && pend.ws == ws && pend.Ok() && timers.cnt > 0 && timers.slots[HEAP0].at < mnNow
      requires Passed(p) && Cleared(c) && c.was.Keys == p.at0.Keys && c.f == p.f
      requires InBand(p.at0.Keys)
      modifies this`activecnt, timers, timers.slots, p.at0.Keys`active, p.at0.Keys`at, p.at0.Keys`pending, pend`stacks
      ensures TimersOk() && pend.Ok() && timers.slots == old(timers.slots) && InBand(p.at0.Keys)
      ensures OthersActive() == old(OthersActive())
      ensures w in p.left && Passed(p.Next(w)) && Cleared(d)
      ensures d.f == p.f + [w] && d.was == c.was && d.m0 == c.m0
    {
      w := ExpiryRound(p);
      d := c.(f := c.f + [w], clears := if w.repeat_ == 0.0 then c.clears + [Clear(w, Pri(w))] else c.clears);
      ClearedStep(c, w, d);
    }

    /** feed_reverse */
    method FeedReverse(w: Watcher, ghost p: Pass, ghost c: Clearing)
      requires TimersOk() && pend.Ok() && Passed(p) && Cleared(c) && InBand(p.at0.Keys)
      modifies this`rfeeds
      ensures TimersOk() && pend.Ok() && Passed(p) && Cleared(c) && InBand(p.at0.Keys)
      ensures rfeeds == old(rfeeds) + [w]
    {
      hide TimersOk, SlotsOk, Passed, Cleared;
      rfeeds := rfeeds + [w];
    }

    /** The body of the loop of timers_reify. */
    method ExpireOne(ghost p: Pass, ghost c: Clearing) returns (ghost q: Pass, ghost d: Clearing)
      requires TimersOk() && pend.ws == ws && pend.Ok() && timers.cnt > 0 && timers.slots[HEAP0].at < mnNow
      requires Passed(p) && Cleared(c) && c.was.Keys == p.at0.Keys && c.f == p.f == rfeeds
      requires InBand(p.at0.Keys)
      modifies this`activecnt, this`rfeeds, timers, timers.slots,
               p.at0.Keys`active, p.at0.Keys`at, p.at0.Keys`pending, pend`stacks
      ensures TimersOk() && pend.Ok() && timers.slots == old(timers.slots) && InBand(p.at0.Keys)
      ensures OthersActive() == old(OthersActive())
      ensures Passed(q) && Cleared(d) && q.f == d.f == rfeeds && q.at0 == p.at0 && q.left < p.left
      ensures d.was == c.was && d.m0 == c.m0
    {
      hide TimersOk, SlotsOk, Passed, Cleared, LiveAll;
      var w;
      w, d := ExpireTracked(p, c);
      q := p.Next(w);
      FeedReverse(w, q, d);
    }

    /** When the root is not due, nothing is left to expire. */
    lemma NoneDue(p: Pass)
      requires TimersOk() && Passed(p)
      requires timers.cnt > 0 ==> mnNow <= timers.slots[HEAP0].at
      ensures p.left == {} && forall u :: u in timers.members ==> mnNow <= u.at
    {
      if timers.cnt > 0 { RootIsNext(); }
    }

    /** The pass before its first round. */
    lemma PassStart(p: Pass, c: Clearing)
      requires p.at0.Keys == c.was.Keys == timers.members
      requires forall u :: u in p.at0 ==> u.at == p.at0[u] && u.pending == c.was[u]
      requires p.f == [] && p.left == (set u | u in p.at0 && p.at0[u] < mnNow)
      requires c == Clearing([], [], c.was, pend.Model())
      ensures Passed(p) && Cleared(c)
    {
    }

    /** The loop of timers_reify: expires timers until the next one is not yet due. */
    method ExpireAll(ghost p0: Pass, ghost c0: Clearing) returns (ghost c: Clearing)
      requires TimersOk() && pend.ws == ws && pend.Ok() && InBand(p0.at0.Keys)
      requires Passed(p0) && Cleared(c0) && c0.was.Keys == p0.at0.Keys && p0.f == c0.f == rfeeds
      modifies this`activecnt, this`rfeeds, timers, timers.slots,
               p0.at0.Keys`active, p0.at0.Keys`at, p0.at0.Keys`pending, pend`stacks
      ensures TimersOk() && pend.Ok() && InBand(p0.at0.Keys)
      ensures OthersActive() == old(OthersActive())
      ensures Passed(Pass(rfeeds, {}, p0.at0)) && Cleared(c) && c.f == rfeeds && c.was == c0.was && c.m0 == c0.m0
    {
      ghost var p, slots := p0, timers.slots;
      c := c0;
      while timers.cnt > 0 && timers.slots[HEAP0].at < mnNow
        invariant TimersOk() && pend.Ok() && Passed(p) && Cleared(c) && InBand(p0.at0.Keys)
        invariant p.at0 == p0.at0 && p.f == c.f == rfeeds && c.was == c0.was && c.m0 == c0.m0
        invariant timers.slots == slots && OthersActive() == old(OthersActive())
        decreases p.left
      {
        p, c := ExpireOne(p, c);
      }
      NoneDue(p);
    }

    // ---------- the whole pass ----------

    /** Every timer that was due is in the pass. */
    lemma DueIsHandled(p: Pass, w: Watcher)
      requires Passed(p) && p.left == {} && w in p.at0 && p.at0[w] < mnNow
      ensures p.f != [] && w in p.f
    {
    }

    lemma PassedFeedable(p: Pass)
      requires Passed(p) && p.at0.Keys <= ws && InBand(p.at0.Keys)
      ensures Feedable(p.f) && forall u :: u in p.f ==> u in p.at0
    {
    }

    /** The timers of the pass that are not pending any more when it has cleared what will not repeat. */
    ghost function Idle(f: seq<Watcher>, was: map<Watcher, nat>): set<Watcher>
      reads was.Keys`repeat_
    {
      set u | u in f && u in was && (was[u] == 0 || u.repeat_ == 0.0)
    }

    /** Each of `clears` clears a watcher of `f` that does not repeat. */
    ghost predicate OnlyClears(clears: seq<Op>, f: seq<Watcher>)
      reads f`repeat_
    {
      forall op :: op in clears ==> op.Clear? && op.w in f && op.w.repeat_ == 0.0
    }

    lemma ClearedIdle(c: Clearing)
      requires Cleared(c) && forall u :: u in c.f ==> u in c.was
      ensures IdleNow(c.f, Idle(c.f, c.was), c.was) && OnlyClears(c.clears, c.f)
    {
    }

    /** What was said of the pass by the repeat times alone still holds while these do not change. */
    twostate lemma StillIdle(c: Clearing)
      requires forall u :: u in c.was ==> u.repeat_ == old(u.repeat_)
      requires forall u :: u in c.f ==> u in c.was
      requires old(OnlyClears(c.clears, c.f))
      ensures Idle(c.f, c.was) == old(Idle(c.f, c.was)) && OnlyClears(c.clears, c.f)
    {
    }

    lemma ReverseFeeds(f: seq<Watcher>, revents: Events) returns (ops: seq<Op>)
      requires Feedable(f)
      ensures FeedsReversed(ops, f, revents)
    {
      ops := seq(|f|, i requires 0 <= i < |f| reads f`priority => Feed(f[|f| - 1 - i], Pri(f[|f| - 1 - i]), revents));
    }

    /** The feeding half of timers_reify. */
    method FeedExpired(ghost p: Pass, ghost b: Batch)
      requires TimersOk() && pend.ws == ws && pend.Ok() && rfeeds == b.f && b.f != [] && Feedable(b.f)
      requires FeedsReversed(b.ops, b.f, EV_TIMER) && Feeding(b, |b.f|) && Passed(p)
      requires forall u :: u in b.f ==> u in p.at0
      modifies this`rfeeds, pend`stacks, pend`pendingpri, p.at0.Keys`pending
      ensures TimersOk() && pend.Ok() && rfeeds == [] && Passed(p)
      ensures OthersActive() == old(OthersActive())
      ensures FeedsReversed(b.ops, b.f, EV_TIMER) && Feeding(b, 0)
      ensures forall u :: u in p.at0 ==> u.repeat_ == old(u.repeat_)
    {
      hide TimersOk, SlotsOk, LiveAll, Apply, Passed, Feeding, Feedable;
      FeedReverseDone(EV_TIMER, b);
      TimersUnconcerned();
    }

    /** The expiring half of timers_reify, when timer `w` is due. */
    method ExpirePhase(ghost at0: map<Watcher, real>, ghost was: map<Watcher, nat>, ghost w: Watcher)
      returns (ghost c: Clearing, ghost b: Batch)
      requires TimersOk() && pend.ws == ws && pend.Ok() && rfeeds == []
      requires w in at0 && at0[w] < mnNow && at0.Keys <= ws
      requires at0.Keys == was.Keys == timers.members && forall u :: u in at0 ==> u.at == at0[u] && u.pending == was[u]
      requires InBand(at0.Keys)
      modifies this`activecnt, this`rfeeds, timers, timers.slots, at0.Keys`active, at0.Keys`at, at0.Keys`pending, pend`stacks
      ensures TimersOk() && pend.Ok() && rfeeds != [] && Feedable(rfeeds) && Passed(Pass(rfeeds, {}, at0))
      ensures OthersActive() == old(OthersActive())
      ensures c.f == rfeeds && c.was == was && OnlyClears(c.clears, rfeeds) && InRange(c.clears)
      ensures pend.Model() == ApplyAll(old(pend.Model()), c.clears)
      ensures b.f == rfeeds && b.was == was && b.idle == Idle(rfeeds, was) && FeedsReversed(b.ops, rfeeds, EV_TIMER)
      ensures b.goal == ApplyAll(pend.Model(), b.ops) && Feeding(b, |b.f|)
      ensures forall u :: u in rfeeds ==> u in at0
    {
      hide TimersOk, SlotsOk, Passed, Feedable, OnlyClears, IdleNow, Feeding, Idle, LiveAll, InBand;
      ghost var p0 := Pass([], (set u | u in at0 && at0[u] < mnNow), at0);
      c := Clearing([], [], was, pend.Model());
      PassStart(p0, c);
      c := ExpireAll(p0, c);
      DueIsHandled(Pass(rfeeds, {}, at0), w);
      PassedFeedable(Pass(rfeeds, {}, at0));
      ClearedIdle(c);
      ghost var feeds := ReverseFeeds(rfeeds, EV_TIMER);
      b := Batch(rfeeds, Idle(rfeeds, was), was, feeds, ApplyAll(pend.Model(), feeds));
      FeedingStart(b);
    }

    /** When the root is not due, the pass over no timers is the whole pass. */
    lemma NothingExpired(at0: map<Watcher, real>, was: map<Watcher, nat>, b: Batch)
      requires TimersOk() && (timers.cnt > 0 ==> mnNow <= timers.slots[HEAP0].at)
      requires at0.Keys == timers.members && forall u :: u in at0 ==> u.at == at0[u]
      requires b == Batch([], {}, was, [], ApplyAll(ApplyAll(pend.Model(), []), []))
      ensures Passed(Pass([], {}, at0)) && Feeding(b, 0) && b.idle == Idle([], was)
    {
      if timers.cnt > 0 { RootIsNext(); }
    }

    /** timers_reify when timer `w` is due; `m0` are the stacks before. */
    method ExpireAndFeed(ghost at0: map<Watcher, real>, ghost was: map<Watcher, nat>, ghost w: Watcher, ghost m0: Stacks)
      returns (ghost clears: seq<Op>, ghost b: Batch)
      requires TimersOk() && pend.ws == ws && pend.Ok() && rfeeds == [] && pend.Model() == m0
      requires w in at0 && at0[w] < mnNow && at0.Keys <= ws
      requires at0.Keys == was.Keys == timers.members && forall u :: u in at0 ==> u.at == at0[u] && u.pending == was[u]
      requires InBand(at0.Keys)
      modifies this`activecnt, this`rfeeds, timers, timers.slots, at0.Keys`active, at0.Keys`at,
               at0.Keys`pending, pend`stacks, pend`pendingpri
      ensures TimersOk() && pend.Ok() && rfeeds == [] && Passed(Pass(b.f, {}, at0))
      ensures OthersActive() == old(OthersActive())
      ensures OnlyClears(clears, b.f) && InRange(clears)
      ensures b.was == was && b.idle == Idle(b.f, was) && FeedsReversed(b.ops, b.f, EV_TIMER)
      ensures b.goal == ApplyAll(ApplyAll(m0, clears), b.ops) && Feeding(b, 0)
    {
      hide TimersOk, SlotsOk, Passed, Feedable, OnlyClears, IdleNow, Feeding, Idle, LiveAll, InBand;
      ghost var c;
      c, b := ExpirePhase(at0, was, w);
      clears := c.clears;
      label expired:
      FeedExpired(Pass(rfeeds, {}, at0), b);
      StillIdle@expired(c);
    }

    /** timers_reify, given the deadlines `at0` and the pending slots `was` before.  The timers `b.f`
        expired, in that order.  Those that will not repeat were cleared (`clears`), then all of `b.f`
        was fed EV_TIMER in reverse (`b.ops`): the timers that were idle by then end up on their
        stacks in the order of their deadlines, the earliest on top. */
    method TimersReify(ghost at0: map<Watcher, real>, ghost was: map<Watcher, nat>) returns (ghost clears: seq<Op>, ghost b: Batch)
      requires TimersOk() && pend.ws == ws && pend.Ok() && rfeeds == [] && at0.Keys <= ws
      requires at0.Keys == was.Keys == timers.members && forall u :: u in at0 ==> u.at == at0[u] && u.pending == was[u]
      requires InBand(at0.Keys)
      modifies this`activecnt, this`rfeeds, timers, timers.slots, at0.Keys`active, at0.Keys`at,
               at0.Keys`pending, pend`stacks, pend`pendingpri
      ensures TimersOk() && pend.Ok() && rfeeds == [] && Passed(Pass(b.f, {}, at0))
      ensures OthersActive() == old(OthersActive())
      ensures OnlyClears(clears, b.f) && InRange(clears)
      ensures b.was == was && b.idle == Idle(b.f, was) && FeedsReversed(b.ops, b.f, EV_TIMER)
      ensures b.goal == ApplyAll(ApplyAll(old(pend.Model()), clears), b.ops) && Feeding(b, 0)
    {
      if timers.cnt > 0 && timers.slots[HEAP0].at < mnNow {
        RootIsNext();
        clears, b := ExpireAndFeed(at0, was, timers.slots[HEAP0].w, pend.Model());
      } else {
        clears, b := [], Batch([], {}, was, [], ApplyAll(ApplyAll(pend.Model(), []), []));
        NothingExpired(at0, was, b);
      }
    }

    /** Timers of one priority that expire together and were idle are called in the order of their
        deadlines, whatever the callbacks before do, unless they stop one of the two. */
    lemma EarlierDeadlineFirst(b: Batch, at0: map<Watcher, real>, i: nat, j: nat, script: seq<seq<Op>>, n: nat)
      requires InRange(b.ops) && Feeding(b, 0) && Passed(Pass(b.f, {}, at0))
      requires pend.ws == ws && pend.Ok() && pend.ScriptOk(script) && ScriptInRange(script)
      requires i < j < |b.f| && b.f[i] in b.idle && b.f[j] in b.idle
      requires b.f[i] in ws && b.f[j] in ws && Pri(b.f[i]) == Pri(b.f[j])
      requires n < |Calls(pend.Model(), script)| && Calls(pend.Model(), script)[n].w == b.f[j]
      requires forall k :: 0 <= k < n && k < |script| ==> Spares(script[k], b.f[i], b.f[j])
      ensures at0[b.f[i]] <= at0[b.f[j]]
      ensures exists m :: 0 <= m < n && Calls(pend.Model(), script)[m].w == b.f[i]
    {
      assert FedFrom(b.f, 0, b.idle) && b.f[j].pending < b.f[i].pending;
      pend.LaterSlotFirst(b.f[i], b.f[j], script, n);
    }

    /** After the pass no active timer is overdue. */
    lemma NobodyOverdue(p: Pass)
      requires TimersOk() && Passed(p) && p.left == {}
      ensures forall u :: u in timers.members ==> mnNow <= u.at
    {
      forall u | u in timers.members ensures mnNow <= u.at {
        if u in p.f {
          var i :| 0 <= i < |p.f| && p.f[i] == u;
          assert Handled(p.f[i], p.at0[p.f[i]]);
        }
      }
    }
  }

  /** pri_adjust */
  predicate Clamped(before: int, after: int)
  {
    after == if before < MINPRI then MINPRI else if before > MAXPRI then MAXPRI else before
  }

  /** A watcher that was started has a stack of its own priority; higher priorities have higher stacks. */
  lemma StartedInBand(w: Watcher, before: int)
    requires Clamped(before, w.priority)
    ensures 0 <= Pri(w) < NUMPRI && (before <= -2 ==> Pri(w) == 0) && (before >= 2 ==> Pri(w) == 4) && (before == 0 ==> Pri(w) == 2)
  {
  }

  /** How far an expiry pass has got: the timers `f` are done, in that order, and `left` are still
      to come; `at0` are the deadlines of all timers before the pass. */
  datatype Pass = Pass(f: seq<Watcher>, left: set<Watcher>, at0: map<Watcher, real>) {
    function Next(w: Watcher): Pass { Pass(f + [w], left - {w}, at0) }

    /** The timers done were due; what is left is what else is due. */
    ghost predicate DueFirst(now: real)
    {
      && left <= at0.Keys
      && (forall i :: 0 <= i < |f| ==> f[i] in at0 && f[i] !in left && at0[f[i]] < now)
      && (forall u :: u in at0 && u !in f ==> (u in left <==> at0[u] < now))
    }

    /** The timers done come in the order of their deadlines, before all others. */
    ghost predicate Sorted()
      requires forall i :: 0 <= i < |f| ==> f[i] in at0
    {
      && (forall i, j :: 0 <= i < j < |f| ==> f[i] != f[j] && at0[f[i]] <= at0[f[j]])
      && (forall u, i :: u in at0 && u !in f && 0 <= i < |f| ==> at0[f[i]] <= at0[u])
    }

    ghost predicate InOrder(now: real) { DueFirst(now) && Sorted() }

    lemma NextDueFirst(now: real, w: Watcher)
      requires DueFirst(now) && w in left && w !in f && at0[w] < now
      ensures Next(w).DueFirst(now)
    {
      Longer(f, w);
    }

    lemma NextSorted(w: Watcher)
      requires (forall i :: 0 <= i < |f| ==> f[i] in at0) && Sorted() && w in at0 && w !in f
      requires forall u :: u in at0 && u !in f ==> at0[w] <= at0[u]
      ensures (forall i :: 0 <= i < |f + [w]| ==> (f + [w])[i] in at0) && Next(w).Sorted()
    {
      Longer(f, w);
      var g := f + [w];
      forall i, j | 0 <= i < j < |g| ensures g[i] != g[j] && at0[g[i]] <= at0[g[j]] {
        assert g[i] == f[i] && f[i] in f;
      }
    }

    lemma NextInOrder(now: real, w: Watcher)
      requires InOrder(now) && w in left && w !in f && at0[w] < now
      requires forall u :: u in at0 && u !in f ==> at0[w] <= at0[u]
      ensures Next(w).InOrder(now)
    {
      hide Sorted;
      NextSorted(w);
      NextDueFirst(now, w);
    }
  }

  lemma Longer(f: seq<Watcher>, w: Watcher)
    ensures forall i :: 0 <= i < |f| ==> (f + [w])[i] == f[i]
    ensures (f + [w])[|f|] == w && forall u :: u in f + [w] <==> u in f || u == w
  {
  }

  /** What a pass over `f` does to the pending stacks: the operations `clears`; `was` and `m0` are
      the pending slots and the stacks before. */
  datatype Clearing = Clearing(f: seq<Watcher>, clears: seq<Op>, was: map<Watcher, nat>, m0: Stacks)

  /** Watchers `f` to feed in reverse, by the operations `ops`, which lead to the stacks `goal`.
      Those in `idle` are not pending when that begins, the others are where they `was`. */
  datatype Batch = Batch(f: seq<Watcher>, idle: set<Watcher>, was: map<Watcher, nat>, ops: seq<Op>, goal: Stacks)
}

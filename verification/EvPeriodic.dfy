/** Periodic timers: the next point of a grid beyond the current time, in exact arithmetic, and the
  rebuilding of the heap after a jump of the clock.
*/
module EvPeriodic {
  import opened EvHeap

  const MIN_INTERVAL: real := 0.0001220703125

  // ---------- the grid offset + k * interval ----------

  ghost predicate OnGrid(base: real, interval: real, t: real)
  {
    exists k: int :: t == GridPoint(base, interval, k)
  }

  function GridPoint(base: real, interval: real, k: int): real { base + k as real * interval }

  /** `t` is the first point beyond `now` of the grid through `base`. */
  ghost predicate FirstBeyond(base: real, interval: real, now: real, t: real)
  {
    OnGrid(base, interval, t) && now < t && forall s :: OnGrid(base, interval, s) && now < s ==> t <= s
  }

  lemma Steps(n: int, interval: real)
    requires interval > 0.0
    ensures n as real * interval > 0.0 ==> n > 0
  {
    if n <= 0 { assert n as real * interval <= 0.0; }
  }

  lemma Scale(c: real, x: real, y: real)
    requires c > 0.0
    ensures x <= y ==> c * x <= c * y
    ensures x < y ==> c * x < c * y
  {
  }

  lemma ScaleQuotient(c: real, d: real)
    requires c > 0.0
    ensures c * (d / c) == d
  {
  }

  lemma GridSpacing(base: real, interval: real, k: int, j: int)
    ensures GridPoint(base, interval, j) - GridPoint(base, interval, k) == (j - k) as real * interval
  {
    assert (j - k) as real == j as real - k as real;
  }

  lemma GridOrder(base: real, interval: real, k: int, n: int, now: real)
    requires interval > 0.0 && GridPoint(base, interval, k) <= now < GridPoint(base, interval, n)
    ensures k < n
  {
    GridSpacing(base, interval, k, n);
    Steps(n - k, interval);
  }

  lemma GridMonotone(base: real, interval: real, k: int, n: int)
    requires interval > 0.0 && k <= n
    ensures GridPoint(base, interval, k) <= GridPoint(base, interval, n)
  {
    Scale(interval, k as real, n as real);
  }

  lemma WithinIntervalIsFirst(base: real, interval: real, now: real, t: real)
    requires interval > 0.0 && OnGrid(base, interval, t) && now < t <= now + interval
    ensures FirstBeyond(base, interval, now, t)
  {
    var k: int :| t == GridPoint(base, interval, k);
    forall s | OnGrid(base, interval, s) && now < s ensures t <= s {
      var j: int :| s == GridPoint(base, interval, j);
      GridSpacing(base, interval, k - 1, k);
      GridOrder(base, interval, k - 1, j, now);
      GridMonotone(base, interval, k, j);
    }
  }

  /** The interval that the estimate is computed with. */
  function Coarse(interval: real): real { if interval > MIN_INTERVAL then interval else MIN_INTERVAL }

  function Times(c: real, x: real): real { c * x }

  /** The estimate: a point of the grid of the coarse interval, at most that interval in the past. */
  function Estimate(offset: real, interval: real, now: real): real
  {
    offset + Times(Coarse(interval), ((now - offset) / Coarse(interval)).Floor as real)
  }

  lemma FloorOf(x: real)
    ensures x.Floor as real <= x < x.Floor as real + 1.0
  {
  }

  lemma TimesUp(c: real, x: real, y: real)
    requires c > 0.0 && x <= y
    ensures Times(c, x) <= Times(c, y)
  {
  }

  lemma LessThanNext(c: real, x: real, f: real)
    requires c > 0.0 && x < f + 1.0
    ensures Times(c, x) < Times(c, f) + c
  {
    var e := f + 1.0 - x;
    assert c * e > 0.0;
    assert c * x + c * e == c * (x + e);
  }

  lemma TimesQuotient(c: real, d: real)
    requires c > 0.0
    ensures Times(c, d / c) == d
  {
  }

  lemma EstimateIsClose(offset: real, interval: real, now: real)
    ensures Estimate(offset, interval, now) <= now < Estimate(offset, interval, now) + Coarse(interval)
  {
    hide Times;
    var c, d := Coarse(interval), now - offset;
    TimesQuotient(c, d);
    FloorOf(d / c);
    TimesUp(c, (d / c).Floor as real, d / c);
    LessThanNext(c, d / c, (d / c).Floor as real);
  }

  lemma GridStart(base: real, interval: real)
    ensures GridPoint(base, interval, 0) == base
  {
  }

  lemma GridNext(base: real, interval: real, k: int)
    ensures GridPoint(base, interval, k + 1) == GridPoint(base, interval, k) + interval
  {
    assert (k + 1) as real == k as real + 1.0;
  }

  lemma GridReaches(base: real, interval: real, now: real) returns (n: int)
    requires interval > 0.0
    ensures now < GridPoint(base, interval, n)
  {
    var x := (now - base) / interval;
    n := x.Floor + 1;
    ScaleQuotient(interval, now - base);
    Scale(interval, x, n as real);
  }

  /** periodic_recalc.  The result is the first point beyond `now` on the grid through the estimate;
      without an interval it is `now`. */
  method PeriodicRecalc(offset: real, interval: real, now: real) returns (at: real)
    requires interval >= 0.0
    ensures interval == 0.0 ==> at == now
    ensures interval > 0.0 ==> now < at <= now + interval
    ensures interval > 0.0 ==> FirstBeyond(Estimate(offset, interval, now), interval, now, at)
  {
    hide Times, GridPoint, FirstBeyond;
    var coarse := if interval > MIN_INTERVAL then interval else MIN_INTERVAL;
    at := offset + Times(coarse, ((now - offset) / coarse).Floor as real);
    EstimateIsClose(offset, interval, now);
    ghost var base, k, far := at, 0, 0;
    GridStart(base, interval);
    if interval > 0.0 {
      far := GridReaches(base, interval, now);
      GridOrder(base, interval, 0, far, now);
    }
    while at <= now
      invariant at == GridPoint(base, interval, k)
      invariant interval == 0.0 ==> at <= now
      invariant interval > 0.0 ==> at <= now + interval && now < GridPoint(base, interval, far) && k <= far
      decreases far - k
    {
      var next := at + interval;
      if next == at {
        at := now;
        return;
      }
      GridOrder(base, interval, k, far, now);
      GridNext(base, interval, k);
      at := next;
      k := k + 1;
    }
    WithinIntervalIsFirst(base, interval, now, at);
  }

  // ---------- when the result is on the grid the user asked for ----------

  predicate IsWhole(x: real) { x == x.Floor as real }

  /** The greatest multiple of MIN_INTERVAL up to now, counted from the offset, is a whole number of
      intervals; or the interval is not shorter than MIN_INTERVAL. */
  predicate StaysOnGrid(offset: real, interval: real, now: real)
    requires interval > 0.0
  {
    interval >= MIN_INTERVAL || IsWhole(Times(MIN_INTERVAL, ((now - offset) / MIN_INTERVAL).Floor as real) / interval)
  }

  lemma WholeMultiple(x: real, interval: real, k: int)
    requires interval > 0.0
    ensures x == Times(k as real, interval) <==> x / interval == k as real
  {
  }

  lemma MultipleIff(offset: real, interval: real, x: real)
    requires interval > 0.0
    ensures OnGrid(offset, interval, offset + x) <==> IsWhole(x / interval)
  {
    hide Times;
    if OnGrid(offset, interval, offset + x) {
      var k: int :| offset + x == GridPoint(offset, interval, k);
      PointIs(offset, interval, k);
      WholeMultiple(x, interval, k);
    }
    if IsWhole(x / interval) {
      var k := (x / interval).Floor;
      WholeMultiple(x, interval, k);
      PointIs(offset, interval, k);
      assert offset + x == GridPoint(offset, interval, k);
    }
  }

  lemma PointIs(offset: real, interval: real, k: int)
    ensures GridPoint(offset, interval, k) == offset + Times(k as real, interval)
  {
  }

  lemma TimesCommutes(x: real, y: real)
    ensures Times(x, y) == Times(y, x)
  {
  }

  /** When the estimate is a point of the grid through the offset. */
  lemma EstimateOnGridIff(offset: real, interval: real, now: real)
    requires interval > 0.0
    ensures OnGrid(offset, interval, Estimate(offset, interval, now)) <==> StaysOnGrid(offset, interval, now)
  {
    hide Times, IsWhole, OnGrid;
    if interval >= MIN_INTERVAL {
      var q := ((now - offset) / interval).Floor;
      PointIs(offset, interval, q);
      TimesCommutes(interval, q as real);
      PointOnGrid(offset, interval, q);
    } else {
      MultipleIff(offset, interval, Times(MIN_INTERVAL, ((now - offset) / MIN_INTERVAL).Floor as real));
    }
  }

  lemma PointOnGrid(offset: real, interval: real, k: int)
    ensures OnGrid(offset, interval, GridPoint(offset, interval, k))
  {
  }

  lemma ShiftGrid(base: real, offset: real, interval: real, t: real)
    requires OnGrid(offset, interval, base)
    ensures OnGrid(base, interval, t) <==> OnGrid(offset, interval, t)
  {
    var m: int :| base == GridPoint(offset, interval, m);
    if OnGrid(base, interval, t) {
      var k: int :| t == GridPoint(base, interval, k);
      assert (m + k) as real == m as real + k as real;
      assert t == GridPoint(offset, interval, m + k);
    }
    if OnGrid(offset, interval, t) {
      var k: int :| t == GridPoint(offset, interval, k);
      GridSpacing(offset, interval, m, k);
      assert t == GridPoint(base, interval, k - m);
    }
  }

  /** Exactly when a periodic fires at the next point of its own grid; `at` is what periodic_recalc
      returns. */
  lemma RecalcOnGridIff(offset: real, interval: real, now: real, at: real)
    requires interval > 0.0 && FirstBeyond(Estimate(offset, interval, now), interval, now, at)
    ensures FirstBeyond(offset, interval, now, at) <==> StaysOnGrid(offset, interval, now)
  {
    hide StaysOnGrid, Estimate;
    var base := Estimate(offset, interval, now);
    EstimateOnGridIff(offset, interval, now);
    if OnGrid(offset, interval, at) {
      var k: int, j: int :| at == GridPoint(base, interval, k) && at == GridPoint(offset, interval, j);
      assert (j - k) as real == j as real - k as real;
      assert base == GridPoint(offset, interval, j - k);
    }
    if OnGrid(offset, interval, base) {
      forall t ensures OnGrid(base, interval, t) <==> OnGrid(offset, interval, t) { ShiftGrid(base, offset, interval, t); }
    }
  }

  /** An interval of at least MIN_INTERVAL is safe. */
  lemma LongIntervalsAreOnGrid(offset: real, interval: real, now: real, at: real)
    requires interval >= MIN_INTERVAL && FirstBeyond(Estimate(offset, interval, now), interval, now, at)
    ensures FirstBeyond(offset, interval, now, at)
  {
    RecalcOnGridIff(offset, interval, now, at);
  }

  /** A shorter one is not: with three quarters of MIN_INTERVAL from offset 0, at time MIN_INTERVAL,
      the result is off the grid. */
  lemma ShortIntervalCounterexample()
    ensures var interval, now := 0.75 * MIN_INTERVAL, MIN_INTERVAL;
      && FirstBeyond(Estimate(0.0, interval, now), interval, now, now + interval)
      && !FirstBeyond(0.0, interval, now, now + interval)
  {
    var interval, now := 0.75 * MIN_INTERVAL, MIN_INTERVAL;
    assert Estimate(0.0, interval, now) == now;
    assert now + interval == GridPoint(now, interval, 1);
    WithinIntervalIsFirst(now, interval, now, now + interval);
    assert MIN_INTERVAL / interval == 4.0 / 3.0;
    assert !IsWhole(4.0 / 3.0);
    RecalcOnGridIff(0.0, interval, now, now + interval);
  }

  // ---------- after a jump of the clock ----------

  datatype Reschedule = NoCallback | Callback(f: real -> real)

  /** The fields of an ev_periodic that the user sets and the loop only reads. */
  datatype Period = Period(offset: real, interval: real, reschedule: Reschedule)

  /** `at` is where periodics_reschedule moves a periodic with deadline `before`. */
  ghost predicate Moved(p: Period, now: real, before: real, at: real)
  {
    match p.reschedule
    case Callback(f) => at == f(now)
    case NoCallback =>
      if p.interval == 0.0 then at == before
      else now < at <= now + p.interval && FirstBeyond(Estimate(p.offset, p.interval, now), p.interval, now, at)
  }

  class Periodics {
    const heap: TimedHeap
    const periods: map<Watcher, Period>
    var rtNow: real

    ghost predicate Ok()
      reads heap`slots, heap`cnt, heap`members, heap.slots, heap.members`active, heap.members`at
    {
      heap.Ok() && forall u :: u in heap.members ==> u in periods && periods[u].interval >= 0.0
    }

    constructor (periods: map<Watcher, Period>, now: real)
      ensures Ok() && heap.members == {} && this.periods == periods && rtNow == now
    {
      heap := new TimedHeap();
      this.periods, rtNow := periods, now;
    }

    /** The new deadline of one periodic. */
    method NewDeadline(w: Watcher) returns (at: real)
      requires w in periods && periods[w].interval >= 0.0
      ensures Moved(periods[w], rtNow, w.at, at)
    {
      var p := periods[w];
      match p.reschedule {
        case Callback(f) => at := f(rtNow);
        case NoCallback =>
          if p.interval != 0.0 { at := PeriodicRecalc(p.offset, p.interval, rtNow); } else { at := w.at; }
      }
    }

    /** The first `i` entries have been moved, the others not. */
    ghost predicate Rekeyed(h: seq<Anhe>, n: int, i: int, ws: set<Watcher>, at0: map<Watcher, real>)
      requires Fits(h, n)
      reads `rtNow, ws`active, ws`at
    {
      ws == at0.Keys && Holds(h, n, ws) && MovedBelow(i, ws, at0)
    }

    /** The watchers in the first `i` slots have been moved, the others not. */
    ghost predicate MovedBelow(i: int, ws: set<Watcher>, at0: map<Watcher, real>)
      requires ws == at0.Keys
      reads `rtNow, ws`active, ws`at
    {
      && (forall u :: u in ws ==> u in periods && periods[u].interval >= 0.0)
      && (forall u :: u in ws && u.active < HEAP0 + i ==> Moved(periods[u], rtNow, at0[u], u.at))
      && (forall u :: u in ws && u.active >= HEAP0 + i ==> u.at == at0[u])
    }

    lemma BelowIs(i: int, ws: set<Watcher>, at0: map<Watcher, real>, w: Watcher)
      requires ws == at0.Keys && MovedBelow(i, ws, at0) && w in ws
      ensures w in periods && periods[w].interval >= 0.0 && (w.active >= HEAP0 + i ==> w.at == at0[w])
    {
    }

    lemma NoneMoved(h: seq<Anhe>, n: int, ws: set<Watcher>, at0: map<Watcher, real>)
      requires Fits(h, n) && Holds(h, n, ws) && ws == at0.Keys
      requires forall u :: u in ws ==> u.at == at0[u] && u in periods && periods[u].interval >= 0.0
      ensures Rekeyed(h, n, 0, ws, at0)
    {
    }

    lemma AllMoved(h: seq<Anhe>, n: int, ws: set<Watcher>, at0: map<Watcher, real>)
      requires Fits(h, n) && Rekeyed(h, n, n, ws, at0)
      ensures forall u :: u in ws ==> u in periods && periods[u].interval >= 0.0 && Moved(periods[u], rtNow, at0[u], u.at)
    {
      hide Moved;
    }

    twostate lemma MovedStep(at0: map<Watcher, real>, new i: int, new w: Watcher)
      requires old(MovedBelow(i, at0.Keys, at0)) && rtNow == old(rtNow) && w in at0 && old(w.active) == HEAP0 + i
      requires forall u :: u in at0 ==> u.active == old(u.active) && (u != w ==> u.at == old(u.at) && u.active != w.active)
      requires Moved(periods[w], rtNow, at0[w], w.at)
      ensures MovedBelow(i + 1, at0.Keys, at0)
    {
      hide Moved;
    }

    /** The body of the loop of periodics_reschedule. */
    method Rekey(i: int, ghost at0: map<Watcher, real>)
      requires Fits(heap.slots[..], heap.cnt) && 0 <= i < heap.cnt
      requires Rekeyed(heap.slots[..], heap.cnt, i, heap.members, at0)
      modifies heap.slots, heap.members`at
      ensures Rekeyed(heap.slots[..], heap.cnt, i + 1, heap.members, at0)
    {
      hide Moved, Ordered, MovedBelow;
      var k := HEAP0 + i;
      var w := heap.slots[k].w;
      BelowIs(i, heap.members, at0, w);
      var at := NewDeadline(w);
      w.at := at;
      heap.slots[k] := Anhe(w, w.at);
      MovedStep(at0, i, w);
    }

    /** periodics_reschedule: every periodic is moved, and the heap is valid again. */
    method PeriodicsReschedule(ghost at0: map<Watcher, real>)
      requires Ok() && at0.Keys == heap.members && forall u :: u in at0 ==> u.at == at0[u]
      modifies heap.slots, heap.members`at, heap.members`active
      ensures Ok() && forall u :: u in heap.members ==> Moved(periods[u], rtNow, at0[u], u.at)
    {
      hide Ordered, Holds, Moved, MovedBelow;
      var i := 0;
      NoneMoved(heap.slots[..], heap.cnt, heap.members, at0);
      while i < heap.cnt
        invariant 0 <= i <= heap.cnt && Fits(heap.slots[..], heap.cnt)
        invariant Rekeyed(heap.slots[..], heap.cnt, i, heap.members, at0)
      {
        Rekey(i, at0);
        i := i + 1;
      }
      AllMoved(heap.slots[..], heap.cnt, heap.members, at0);
      ReHeap(heap.slots, heap.cnt, heap.members);
    }
  }
}

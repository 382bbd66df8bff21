/** Pending events: one stack of fed watchers per priority, with back-pointers from the watchers
  and lazy deletion.  A stopped watcher's slot stays on its stack with a dummy in it.

  The reference model forgets slots, dummies and back-pointers: per priority it keeps the live
  watchers only, each with the union of the events fed to it.
*/
module EvPending {
  import opened EvHeap

  const MINPRI: int := -2
  const MAXPRI: int := 2
  const NUMPRI: int := MAXPRI - MINPRI + 1

  /** An event mask, as the set of its bits; a bitwise "or" is a union. */
  type Events = set<nat>

  const EV_TIMER: Events := {8}     // 0x100

  /** One slot; null stands for the dummy watcher pending_w. */
  datatype AnPending = AnPending(w: Watcher?, events: Events)

  /** A watcher and what was fed to it: an element of the reference stacks, and a callback invocation. */
  datatype Fed = Fed(w: Watcher, events: Events)

  /** What a callback may do to the stacks: ev_feed_event, or the clear_pending that begins every
      ev_*_stop.  `pri` is the watcher's priority counted from 0. */
  datatype Op = Feed(w: Watcher, pri: int, events: Events) | Clear(w: Watcher, pri: int)

  function Pri(w: Watcher): int
    reads w`priority
  {
    w.priority - MINPRI
  }

  // ---------- the reference model ----------

  type Stacks = s: seq<seq<Fed>> | |s| == NUMPRI witness [[], [], [], [], []]

  predicate Has(s: seq<Fed>, w: Watcher) { exists i :: 0 <= i < |s| && s[i].w == w }

  function OrIn(s: seq<Fed>, w: Watcher, events: Events): seq<Fed>
  {
    seq(|s|, i requires 0 <= i < |s| => if s[i].w == w then Fed(w, s[i].events + events) else s[i])
  }

  function FeedIn(s: seq<Fed>, w: Watcher, events: Events): seq<Fed>
  {
    if Has(s, w) then OrIn(s, w, events) else s + [Fed(w, events)]
  }

  function ClearIn(s: seq<Fed>, w: Watcher): seq<Fed>
  {
    if s == [] then []
    else
      var front := ClearIn(s[..|s| - 1], w);
      if s[|s| - 1].w == w then front else front + [s[|s| - 1]]
  }

  function Apply(l: Stacks, op: Op): Stacks
    requires 0 <= op.pri < NUMPRI
  {
    match op
    case Feed(w, pri, events) => l[pri := FeedIn(l[pri], w, events)]
    case Clear(w, pri) => l[pri := ClearIn(l[pri], w)]
  }

  predicate InRange(ops: seq<Op>) { forall op :: op in ops ==> 0 <= op.pri < NUMPRI }

  function ApplyAll(l: Stacks, ops: seq<Op>): Stacks
    requires InRange(ops)
    decreases |ops|
  {
    if ops == [] then l else ApplyAll(Apply(l, ops[0]), ops[1..])
  }

  lemma {:induction false} ApplyAllAppend(l: Stacks, a: seq<Op>, b: seq<Op>)
    requires InRange(a) && InRange(b)
    ensures InRange(a + b) && ApplyAll(l, a + b) == ApplyAll(ApplyAll(l, a), b)
    decreases |a|
  {
    if a == [] {
      assert a + b == b;
    } else {
      assert (a + b)[1..] == a[1..] + b;
      ApplyAllAppend(Apply(l, a[0]), a[1..], b);
    }
  }

  /** Highest priority at or below `pri` with a live watcher, or -1. */
  function Highest(l: Stacks, pri: int): (r: int)
    requires -1 <= pri < NUMPRI
    ensures -1 <= r <= pri
    ensures r >= 0 ==> l[r] != []
    ensures forall q :: r < q <= pri ==> l[q] == []
  {
    if pri < 0 || l[pri] != [] then pri else Highest(l, pri - 1)
  }

  function Total(l: Stacks): nat { |l[0]| + |l[1]| + |l[2]| + |l[3]| + |l[4]| }

  predicate ScriptInRange(script: seq<seq<Op>>) { forall i :: 0 <= i < |script| ==> InRange(script[i]) }

  /** The stacks after the next callback, which does what the script says first, or nothing. */
  function AfterCall(l: Stacks, p: int, script: seq<seq<Op>>): Stacks
    requires ScriptInRange(script) && 0 <= p < NUMPRI && l[p] != []
  {
    var popped: Stacks := l[p := l[p][..|l[p]| - 1]];
    if script == [] then popped else ApplyAll(popped, script[0])
  }

  function Rest(script: seq<seq<Op>>): seq<seq<Op>> { if script == [] then [] else script[1..] }

  /** The calls of the reference model: always the most recently queued watcher of the highest priority. */
  function Calls(l: Stacks, script: seq<seq<Op>>): seq<Fed>
    requires ScriptInRange(script)
    decreases |script|, Total(l)
  {
    var p := Highest(l, NUMPRI - 1);
    if p < 0 then [] else [l[p][|l[p]| - 1]] + Calls(AfterCall(l, p, script), Rest(script))
  }

  /** The stacks of the reference model just before its `n`-th call. */
  function Before(l: Stacks, script: seq<seq<Op>>, n: nat): Stacks
    requires ScriptInRange(script)
    decreases n
  {
    var p := Highest(l, NUMPRI - 1);
    if n == 0 || p < 0 then l else Before(AfterCall(l, p, script), Rest(script), n - 1)
  }

  lemma CallsUnfold(l: Stacks, script: seq<seq<Op>>)
    requires ScriptInRange(script) && Calls(l, script) != []
    ensures var p := Highest(l, NUMPRI - 1);
      && p >= 0
      && Calls(l, script)[0] == l[p][|l[p]| - 1]
      && Calls(l, script)[1..] == Calls(AfterCall(l, p, script), Rest(script))
  {
  }

  /** `c` is the call the model makes in state `l`, and `l'` the state it leaves. */
  predicate Called(l: Stacks, p: int, script: seq<seq<Op>>, c: Fed, l': Stacks)
    requires ScriptInRange(script)
  {
    && 0 <= p < NUMPRI && Highest(l, NUMPRI - 1) == p
    && c == l[p][|l[p]| - 1]
    && l' == AfterCall(l, p, script)
  }

  lemma CallsCons(l: Stacks, p: int, script: seq<seq<Op>>, c: Fed, l': Stacks)
    requires ScriptInRange(script) && Called(l, p, script, c, l')
    ensures Calls(l, script) == [c] + Calls(l', Rest(script))
  {
  }

  lemma {:induction false} CallAt(l: Stacks, script: seq<seq<Op>>, n: nat)
    requires ScriptInRange(script) && n < |Calls(l, script)|
    ensures var b := Before(l, script, n);
      var p := Highest(b, NUMPRI - 1);
      p >= 0 && Calls(l, script)[n] == b[p][|b[p]| - 1]
    decreases n
  {
    hide AfterCall, Calls;
    CallsUnfold(l, script);
    if n > 0 {
      var p := Highest(l, NUMPRI - 1);
      CallAt(AfterCall(l, p, script), Rest(script), n - 1);
    }
  }

  // ---------- what is pending for one watcher ----------

  datatype Mask = Dead | Alive(events: Events)

  function MaskIn(s: seq<Fed>, w: Watcher): Mask
  {
    if s == [] then Dead
    else if s[|s| - 1].w == w then Alive(s[|s| - 1].events)
    else MaskIn(s[..|s| - 1], w)
  }

  function MaskStep(m: Mask, w: Watcher, op: Op): Mask
  {
    if op.w != w then m
    else match op
      case Feed(_, _, ev) => if m.Dead? then Alive(ev) else Alive(m.events + ev)
      case Clear(_, _) => Dead
  }

  function MaskAfter(m: Mask, w: Watcher, ops: seq<Op>): Mask
    decreases |ops|
  {
    if ops == [] then m else MaskAfter(MaskStep(m, w, ops[0]), w, ops[1..])
  }

  /** The events fed to `w` since it was last called or cleared, computed from the history of
      calls and from what the callbacks did, with no stacks in sight. */
  function MaskHistory(m: Mask, w: Watcher, calls: seq<Fed>, script: seq<seq<Op>>, n: nat): Mask
    requires n <= |calls|
    decreases n
  {
    if n == 0 then m
    else
      var dead := if calls[0].w == w then Dead else m;
      MaskHistory(if script == [] then dead else MaskAfter(dead, w, script[0]), w, calls[1..], Rest(script), n - 1)
  }

  predicate Distinct(s: seq<Fed>) { forall i, j :: 0 <= i < j < |s| ==> s[i].w != s[j].w }

  /** Every watcher is at most once on the stacks, and on the stack of its own priority. */
  predicate Tidy(l: Stacks, home: map<Watcher, int>)
  {
    forall p :: 0 <= p < NUMPRI ==>
      Distinct(l[p]) && forall i :: 0 <= i < |l[p]| ==> l[p][i].w in home && home[l[p][i].w] == p
  }

  predicate AtHome(ops: seq<Op>, home: map<Watcher, int>)
  {
    forall op :: op in ops ==> op.w in home && home[op.w] == op.pri && 0 <= op.pri < NUMPRI
  }

  predicate ScriptAtHome(script: seq<seq<Op>>, home: map<Watcher, int>)
  {
    forall i :: 0 <= i < |script| ==> AtHome(script[i], home)
  }

  lemma {:induction false} HasIsAlive(s: seq<Fed>, w: Watcher)
    ensures Has(s, w) <==> MaskIn(s, w).Alive?
    decreases |s|
  {
    if s != [] {
      HasIsAlive(s[..|s| - 1], w);
      if Has(s, w) && s[|s| - 1].w != w {
        var i :| 0 <= i < |s| && s[i].w == w;
        assert s[..|s| - 1][i].w == w;
      }
      if Has(s[..|s| - 1], w) {
        var i :| 0 <= i < |s| - 1 && s[..|s| - 1][i].w == w;
        assert s[i].w == w;
      }
    }
  }

  lemma {:induction false} MaskOfOr(s: seq<Fed>, v: Watcher, ev: Events, w: Watcher)
    ensures MaskIn(OrIn(s, v, ev), w) ==
      if v == w && MaskIn(s, w).Alive? then Alive(MaskIn(s, w).events + ev) else MaskIn(s, w)
    decreases |s|
  {
    if s != [] {
      assert OrIn(s, v, ev)[..|s| - 1] == OrIn(s[..|s| - 1], v, ev);
      MaskOfOr(s[..|s| - 1], v, ev, w);
    }
  }

  lemma {:induction false} ClearMembers(s: seq<Fed>, v: Watcher)
    ensures forall x :: x in ClearIn(s, v) ==> x in s && x.w != v
    decreases |s|
  {
    if s != [] {
      ClearMembers(s[..|s| - 1], v);
      forall x | x in ClearIn(s, v) ensures x in s && x.w != v {
        if x in ClearIn(s[..|s| - 1], v) { assert x in s[..|s| - 1]; }
      }
    }
  }

  lemma {:induction false} ClearDistinct(s: seq<Fed>, v: Watcher)
    requires Distinct(s)
    ensures Distinct(ClearIn(s, v))
    decreases |s|
  {
    if s != [] {
      var front, c := ClearIn(s[..|s| - 1], v), ClearIn(s, v);
      ClearDistinct(s[..|s| - 1], v);
      ClearMembers(s[..|s| - 1], v);
      forall i, j | 0 <= i < j < |c| ensures c[i].w != c[j].w {
        if j == |front| {
          assert front[i] in s[..|s| - 1];
          var k :| 0 <= k < |s| - 1 && s[k] == front[i];
        }
      }
    }
  }

  lemma {:induction false} MaskOfClear(s: seq<Fed>, v: Watcher, w: Watcher)
    ensures MaskIn(ClearIn(s, v), w) == if v == w then Dead else MaskIn(s, w)
    decreases |s|
  {
    if s != [] {
      MaskOfClear(s[..|s| - 1], v, w);
      var c := ClearIn(s, v);
      assert s[|s| - 1].w != v ==> c[..|c| - 1] == ClearIn(s[..|s| - 1], v);
    }
  }

  lemma FeedInIs(s: seq<Fed>, v: Watcher, ev: Events, w: Watcher)
    ensures MaskIn(FeedIn(s, v, ev), w) == MaskStep(MaskIn(s, w), w, Feed(v, 0, ev))
    ensures Distinct(s) ==> Distinct(FeedIn(s, v, ev))
    ensures forall i :: 0 <= i < |FeedIn(s, v, ev)| ==> FeedIn(s, v, ev)[i].w == if i < |s| then s[i].w else v
  {
    HasIsAlive(s, v);
    MaskOfOr(s, v, ev, w);
    assert (s + [Fed(v, ev)])[..|s|] == s;
  }

  lemma ApplyTidy(l: Stacks, op: Op, home: map<Watcher, int>)
    requires Tidy(l, home) && op.w in home && home[op.w] == op.pri && 0 <= op.pri < NUMPRI
    ensures Tidy(Apply(l, op), home)
  {
    hide MaskIn, FeedIn, ClearIn;
    var s := l[op.pri];
    match op
    case Feed(v, pri, ev) => FeedInIs(s, v, ev, v);
    case Clear(v, pri) =>
      ClearMembers(s, v);
      ClearDistinct(s, v);
      forall i | 0 <= i < |ClearIn(s, v)| ensures ClearIn(s, v)[i] in s { assert ClearIn(s, v)[i] in ClearIn(s, v); }
  }

  /** One operation changes what is pending exactly as its meaning says. */
  lemma ApplyMask(l: Stacks, op: Op, home: map<Watcher, int>, w: Watcher)
    requires Tidy(l, home) && op.w in home && home[op.w] == op.pri && 0 <= op.pri < NUMPRI
    requires w in home && 0 <= home[w] < NUMPRI
    ensures Tidy(Apply(l, op), home)
    ensures MaskIn(Apply(l, op)[home[w]], w) == MaskStep(MaskIn(l[home[w]], w), w, op)
  {
    hide Tidy, MaskIn, FeedIn, ClearIn;
    ApplyTidy(l, op, home);
    match op
    case Feed(v, pri, ev) => FeedInIs(l[pri], v, ev, w);
    case Clear(v, pri) => MaskOfClear(l[pri], v, w);
  }

  lemma {:induction false} ApplyAllMask(l: Stacks, ops: seq<Op>, home: map<Watcher, int>, w: Watcher)
    requires Tidy(l, home) && AtHome(ops, home) && w in home && 0 <= home[w] < NUMPRI
    ensures Tidy(ApplyAll(l, ops), home)
    ensures MaskIn(ApplyAll(l, ops)[home[w]], w) == MaskAfter(MaskIn(l[home[w]], w), w, ops)
    decreases |ops|
  {
    if ops != [] {
      ApplyMask(l, ops[0], home, w);
      ApplyAllMask(Apply(l, ops[0]), ops[1..], home, w);
    }
  }

  /** Taking the top off a stack forgets exactly its watcher. */
  lemma PopMask(l: Stacks, p: int, home: map<Watcher, int>, w: Watcher)
    requires Tidy(l, home) && 0 <= p < NUMPRI && l[p] != [] && w in home && 0 <= home[w] < NUMPRI
    ensures var popped: Stacks := l[p := l[p][..|l[p]| - 1]];
      Tidy(popped, home) && MaskIn(popped[home[w]], w) ==
        if l[p][|l[p]| - 1].w == w then Dead else MaskIn(l[home[w]], w)
  {
    HasIsAlive(l[p][..|l[p]| - 1], w);
  }

  lemma AfterCallMask(l: Stacks, p: int, script: seq<seq<Op>>, home: map<Watcher, int>, w: Watcher)
    requires Tidy(l, home) && ScriptAtHome(script, home) && ScriptInRange(script)
    requires 0 <= p < NUMPRI && l[p] != [] && w in home && 0 <= home[w] < NUMPRI
    ensures Tidy(AfterCall(l, p, script), home)
    ensures var dead := if l[p][|l[p]| - 1].w == w then Dead else MaskIn(l[home[w]], w);
      MaskIn(AfterCall(l, p, script)[home[w]], w) == if script == [] then dead else MaskAfter(dead, w, script[0])
  {
    PopMask(l, p, home, w);
    if script != [] { ApplyAllMask(l[p := l[p][..|l[p]| - 1]], script[0], home, w); }
  }

  /** Before its n-th call the model has pending for `w` exactly the union of the events fed to
      it since its last call or stop. */
  lemma {:induction false} PendingIsHistory(l: Stacks, script: seq<seq<Op>>, home: map<Watcher, int>, w: Watcher, n: nat)
    requires Tidy(l, home) && ScriptAtHome(script, home) && w in home && 0 <= home[w] < NUMPRI
    requires ScriptInRange(script) && n <= |Calls(l, script)|
    ensures Tidy(Before(l, script, n), home)
    ensures MaskIn(Before(l, script, n)[home[w]], w)
         == MaskHistory(MaskIn(l[home[w]], w), w, Calls(l, script), script, n)
    decreases n
  {
    hide Tidy, MaskIn, AfterCall, Calls, MaskAfter, AtHome, ScriptAtHome;
    if n > 0 {
      var p := Highest(l, NUMPRI - 1);
      CallsUnfold(l, script);
      AfterCallMask(l, p, script, home, w);
      RestAtHome(script, home);
      PendingIsHistory(AfterCall(l, p, script), Rest(script), home, w, n - 1);
    }
  }

  lemma RestAtHome(script: seq<seq<Op>>, home: map<Watcher, int>)
    requires ScriptAtHome(script, home) && ScriptInRange(script)
    ensures ScriptAtHome(Rest(script), home) && ScriptInRange(Rest(script))
  {
  }

  /** Dispatch: the n-th callback goes to a watcher of the highest priority that has anything
      pending; it gets the union of all events fed to that watcher since it was last called or
      stopped; in particular a stopped watcher is not called before it is fed again. */
  lemma DispatchIsFaithful(l: Stacks, script: seq<seq<Op>>, home: map<Watcher, int>, n: nat)
    requires Tidy(l, home) && ScriptAtHome(script, home) && ScriptInRange(script)
    requires n < |Calls(l, script)|
    ensures var c := Calls(l, script)[n];
      && c.w in home && 0 <= home[c.w] < NUMPRI
      && MaskHistory(MaskIn(l[home[c.w]], c.w), c.w, Calls(l, script), script, n) == Alive(c.events)
      && forall w :: w in home && home[c.w] < home[w] < NUMPRI ==>
           MaskHistory(MaskIn(l[home[w]], w), w, Calls(l, script), script, n) == Dead
  {
    hide Calls, AfterCall, MaskHistory, Before, AtHome, ScriptAtHome;
    var c, b := Calls(l, script)[n], Before(l, script, n);
    CallAt(l, script, n);
    var p := Highest(b, NUMPRI - 1);
    BeforeTidy(l, script, home, n);
    assert c == b[p][|b[p]| - 1];
    PendingIsHistory(l, script, home, c.w, n);
    forall w | w in home && home[c.w] < home[w] < NUMPRI
      ensures MaskHistory(MaskIn(l[home[w]], w), w, Calls(l, script), script, n) == Dead
    {
      PendingIsHistory(l, script, home, w, n);
    }
  }

  lemma BeforeTidy(l: Stacks, script: seq<seq<Op>>, home: map<Watcher, int>, n: nat)
    requires Tidy(l, home) && ScriptAtHome(script, home) && ScriptInRange(script) && n < |Calls(l, script)|
    ensures Tidy(Before(l, script, n), home)
  {
    var p := Highest(l, NUMPRI - 1);
    assert l[p][0].w in home;
    PendingIsHistory(l, script, home, l[p][0].w, n);
  }

  // ---------- the order of calls within a priority ----------

  /** `u` lies above `v`. */
  predicate Above(s: seq<Fed>, u: Watcher, v: Watcher)
  {
    exists i, j :: 0 <= j < i < |s| && s[i].w == u && s[j].w == v
  }

  lemma AboveAppend(s: seq<Fed>, t: seq<Fed>, u: Watcher, v: Watcher)
    requires Above(s, u, v)
    ensures Above(s + t, u, v)
  {
    var i, j :| 0 <= j < i < |s| && s[i].w == u && s[j].w == v;
    assert (s + t)[i] == s[i] && (s + t)[j] == s[j];
  }

  lemma HasAppend(s: seq<Fed>, t: seq<Fed>, v: Watcher)
    requires Has(s, v)
    ensures Has(s + t, v)
  {
    var i :| 0 <= i < |s| && s[i].w == v;
    assert (s + t)[i] == s[i];
  }

  lemma {:induction false} ClearKeepsAbove(s: seq<Fed>, x: Watcher, u: Watcher, v: Watcher)
    requires x != u && x != v
    ensures Has(s, v) ==> Has(ClearIn(s, x), v)
    ensures Above(s, u, v) ==> Above(ClearIn(s, x), u, v)
    decreases |s|
  {
    if s != [] {
      var front, e := s[..|s| - 1], s[|s| - 1];
      var c := ClearIn(front, x);
      ClearKeepsAbove(front, x, u, v);
      if i :| 0 <= i < |s| && s[i].w == v {
        if i < |s| - 1 { assert front[i].w == v; HasAppend(c, [e], v); }
        else { assert (c + [e])[|c|].w == v; }
      }
      if i, j :| 0 <= j < i < |s| && s[i].w == u && s[j].w == v {
        assert front[j].w == v;
        if i < |s| - 1 {
          assert front[i].w == u;
          AboveAppend(c, [e], u, v);
        } else {
          var k :| 0 <= k < |c| && c[k].w == v;
          assert (c + [e])[|c|].w == u && (c + [e])[k].w == v;
        }
      }
    }
  }

  lemma OpKeepsAbove(l: Stacks, op: Op, p: int, u: Watcher, v: Watcher)
    requires 0 <= op.pri < NUMPRI && 0 <= p < NUMPRI && Above(l[p], u, v)
    requires op.Clear? ==> op.w != u && op.w != v
    ensures Above(Apply(l, op)[p], u, v)
  {
    match op
    case Feed(w, pri, ev) =>
      AboveAppend(l[p], [Fed(w, ev)], u, v);
      var i, j :| 0 <= j < i < |l[p]| && l[p][i].w == u && l[p][j].w == v;
      assert OrIn(l[p], w, ev)[i].w == u && OrIn(l[p], w, ev)[j].w == v;
    case Clear(w, pri) => ClearKeepsAbove(l[p], w, u, v);
  }

  /** No operation clears `u` or `v`. */
  predicate Spares(ops: seq<Op>, u: Watcher, v: Watcher)
  {
    forall op :: op in ops && op.Clear? ==> op.w != u && op.w != v
  }

  lemma {:induction false} OpsKeepAbove(l: Stacks, ops: seq<Op>, p: int, u: Watcher, v: Watcher)
    requires InRange(ops) && 0 <= p < NUMPRI && Above(l[p], u, v) && Spares(ops, u, v)
    ensures Above(ApplyAll(l, ops)[p], u, v)
    decreases |ops|
  {
    if ops != [] {
      OpKeepsAbove(l, ops[0], p, u, v);
      OpsKeepAbove(Apply(l, ops[0]), ops[1..], p, u, v);
    }
  }

  /** While `u` lies above `v`, `v` is not on top of any stack. */
  lemma TopIsNot(l: Stacks, q: int, home: map<Watcher, int>, p: int, u: Watcher, v: Watcher)
    requires Tidy(l, home) && 0 <= p < NUMPRI && Above(l[p], u, v) && 0 <= q < NUMPRI && l[q] != []
    requires l[q][|l[q]| - 1].w != u
    ensures l[q][|l[q]| - 1].w != v
  {
    var i, j :| 0 <= j < i < |l[p]| && l[p][i].w == u && l[p][j].w == v;
    assert l[p][j].w in home && home[l[p][j].w] == p;
  }

  /** A call of another watcher leaves `u` above `v`. */
  lemma CallKeepsAbove(l: Stacks, q: int, script: seq<seq<Op>>, home: map<Watcher, int>, p: int, u: Watcher, v: Watcher)
    requires Tidy(l, home) && ScriptInRange(script) && 0 <= p < NUMPRI && Above(l[p], u, v)
    requires 0 <= q < NUMPRI && l[q] != [] && l[q][|l[q]| - 1].w != u
    requires script != [] ==> Spares(script[0], u, v)
    ensures Above(AfterCall(l, q, script)[p], u, v)
  {
    var i, j :| 0 <= j < i < |l[p]| && l[p][i].w == u && l[p][j].w == v;
    var popped: Stacks := l[q := l[q][..|l[q]| - 1]];
    assert popped[p][i].w == u && popped[p][j].w == v;
    if script != [] { OpsKeepAbove(popped, script[0], p, u, v); }
  }

  lemma BottomAtHome(l: Stacks, q: int, home: map<Watcher, int>)
    requires Tidy(l, home) && 0 <= q < NUMPRI && l[q] != []
    ensures l[q][0].w in home && home[l[q][0].w] == q
  {
  }

  lemma AtFront(calls: seq<Fed>, n: nat, u: Watcher, v: Watcher)
    requires n < |calls| && calls[n].w == v && u != v && calls[0].w == u
    ensures exists m :: 0 <= m < n && calls[m].w == u
  {
    assert n != 0;
  }

  /** Last in, first out: of two watchers pending with one priority the one queued later is called
      first, whatever the callbacks before do, unless they stop one of the two. */
  lemma {:induction false} LaterQueuedFirst(l: Stacks, script: seq<seq<Op>>, home: map<Watcher, int>,
                                            p: int, u: Watcher, v: Watcher, n: nat)
    requires Tidy(l, home) && ScriptAtHome(script, home) && ScriptInRange(script)
    requires 0 <= p < NUMPRI && Above(l[p], u, v) && u != v
    requires n < |Calls(l, script)| && Calls(l, script)[n].w == v
    requires forall k :: 0 <= k < n && k < |script| ==> Spares(script[k], u, v)
    ensures exists m :: 0 <= m < n && Calls(l, script)[m].w == u
    decreases n
  {
    hide AfterCall, Calls, AtHome, ScriptAtHome, Above;
    var q := Highest(l, NUMPRI - 1);
    CallsUnfold(l, script);
    if Calls(l, script)[0].w == u {
      AtFront(Calls(l, script), n, u, v);
    } else {
      TopIsNot(l, q, home, p, u, v);
      CallKeepsAbove(l, q, script, home, p, u, v);
      var l', rest := AfterCall(l, q, script), Rest(script);
      BottomAtHome(l, q, home);
      AfterCallMask(l, q, script, home, l[q][0].w);
      RestAtHome(script, home);
      LaterQueuedFirst(l', rest, home, p, u, v, n - 1);
      var m :| 0 <= m < n - 1 && Calls(l', rest)[m].w == u;
      assert Calls(l, script)[m + 1] == Calls(l', rest)[m];
    }
  }

  // ---------- the stacks with slots, dummies and back-pointers ----------

  type SlotStacks = s: seq<seq<AnPending>> | |s| == NUMPRI witness [[], [], [], [], []]

  /** The live watchers of a stack, in order. */
  function Live(s: seq<AnPending>): seq<Fed>
  {
    if s == [] then []
    else
      var front, e := Live(s[..|s| - 1]), s[|s| - 1];
      if e.w == null then front else front + [Fed(e.w, e.events)]
  }

  ghost predicate SlotOf(s: seq<AnPending>, w: Watcher, j: int)
  {
    0 <= j < |s| && s[j].w == w && forall i :: 0 <= i < |s| && i != j ==> s[i].w != w
  }

  lemma {:induction false} LiveHas(s: seq<AnPending>, w: Watcher)
    ensures Has(Live(s), w) <==> exists i :: 0 <= i < |s| && s[i].w == w
    decreases |s|
  {
    if s != [] {
      var front, e := s[..|s| - 1], s[|s| - 1];
      LiveHas(front, w);
      if Has(Live(front), w) {
        var i :| 0 <= i < |Live(front)| && Live(front)[i].w == w;
        assert Live(s)[i].w == w;
        var j :| 0 <= j < |front| && front[j].w == w;
        assert s[j].w == w;
      }
      if e.w == w { assert Live(s)[|Live(s)| - 1].w == w && s[|s| - 1].w == w; }
      if j :| 0 <= j < |s| && s[j].w == w && e.w != w { assert front[j].w == w; }
    }
  }

  lemma {:induction false} LiveAbove(s: seq<AnPending>, i: int, j: int)
    requires 0 <= j < i < |s| && s[i].w != null && s[j].w != null
    ensures Above(Live(s), s[i].w, s[j].w)
    decreases |s|
  {
    var front, e := s[..|s| - 1], s[|s| - 1];
    if i < |s| - 1 {
      LiveAbove(front, i, j);
      AboveAppend(Live(front), if e.w == null then [] else [Fed(e.w, e.events)], s[i].w, s[j].w);
      assert Live(front) + [] == Live(front);
    } else {
      assert front[j] == s[j];
      LiveHas(front, s[j].w);
      var k :| 0 <= k < |Live(front)| && Live(front)[k].w == s[j].w;
      assert Live(s)[k].w == s[j].w && Live(s)[|Live(front)|].w == s[i].w;
    }
  }

  /** "Or"-ing into a watcher's slot is "or"-ing into the reference stack. */
  lemma {:induction false} LiveOr(s: seq<AnPending>, w: Watcher, j: int, ev: Events)
    requires SlotOf(s, w, j)
    ensures Live(s[j := AnPending(w, s[j].events + ev)]) == OrIn(Live(s), w, ev)
    decreases |s|
  {
    var front, t := s[..|s| - 1], s[j := AnPending(w, s[j].events + ev)];
    if j < |s| - 1 {
      assert SlotOf(front, w, j);
      LiveOr(front, w, j, ev);
      assert t[..|t| - 1] == front[j := AnPending(w, front[j].events + ev)];
    } else {
      assert t[..|t| - 1] == front;
      LiveHas(front, w);
      assert forall i :: 0 <= i < |front| ==> front[i] == s[i];
      assert OrIn(Live(front), w, ev) == Live(front);
    }
  }

  /** Putting the dummy into a watcher's slot removes it from the reference stack. */
  lemma {:induction false} LiveClear(s: seq<AnPending>, w: Watcher, j: int)
    requires SlotOf(s, w, j)
    ensures Live(s[j := s[j].(w := null)]) == ClearIn(Live(s), w)
    decreases |s|
  {
    var front, t := s[..|s| - 1], s[j := s[j].(w := null)];
    if j < |s| - 1 {
      assert SlotOf(front, w, j);
      LiveClear(front, w, j);
      assert t[..|t| - 1] == front[j := front[j].(w := null)];
      assert s[|s| - 1].w != null ==> Live(s)[..|Live(s)| - 1] == Live(front);
    } else {
      assert t[..|t| - 1] == front;
      LiveHas(front, w);
      assert forall i :: 0 <= i < |front| ==> front[i] == s[i];
      ClearAbsent(Live(front), w);
      assert Live(s)[..|Live(s)| - 1] == Live(front);
    }
  }

  lemma {:induction false} ClearAbsent(s: seq<Fed>, w: Watcher)
    requires !Has(s, w)
    ensures ClearIn(s, w) == s
    decreases |s|
  {
    if s != [] {
      assert forall i :: 0 <= i < |s| - 1 ==> s[..|s| - 1][i] == s[i];
      ClearAbsent(s[..|s| - 1], w);
    }
  }

  function Lengths(s: SlotStacks): nat
  {
    |s[0]| + |s[1]| + |s[2]| + |s[3]| + |s[4]|
  }

  function LiveAll(s: SlotStacks): Stacks
  {
    seq(NUMPRI, p requires 0 <= p < NUMPRI => Live(s[p]))
  }

  lemma LiveUpdate(s: SlotStacks, p: int, t: seq<AnPending>)
    requires 0 <= p < NUMPRI
    ensures LiveAll(s[p := t]) == LiveAll(s)[p := Live(t)]
  {
  }

  lemma LivePush(s: seq<AnPending>, w: Watcher, ev: Events)
    ensures Live(s + [AnPending(w, ev)]) == Live(s) + [Fed(w, ev)]
  {
    assert (s + [AnPending(w, ev)])[..|s|] == s;
  }

  function OrAt(st: SlotStacks, pri: int, j: int, ev: Events): SlotStacks
    requires 0 <= pri < NUMPRI && 0 <= j < |st[pri]|
  {
    st[pri := st[pri][j := AnPending(st[pri][j].w, st[pri][j].events + ev)]]
  }

  function VoidAt(st: SlotStacks, pri: int, j: int): SlotStacks
    requires 0 <= pri < NUMPRI && 0 <= j < |st[pri]|
  {
    st[pri := st[pri][j := st[pri][j].(w := null)]]
  }

  /** A push is the feeding of a watcher that is not on the reference stack. */
  lemma LivePushAt(st: SlotStacks, pri: int, w: Watcher, ev: Events)
    requires 0 <= pri < NUMPRI && !Has(Live(st[pri]), w)
    ensures LiveAll(st[pri := st[pri] + [AnPending(w, ev)]]) == Apply(LiveAll(st), Feed(w, pri, ev))
  {
    LivePush(st[pri], w, ev);
    LiveUpdate(st, pri, st[pri] + [AnPending(w, ev)]);
  }

  lemma LiveOrAt(st: SlotStacks, pri: int, j: int, w: Watcher, ev: Events)
    requires 0 <= pri < NUMPRI && SlotOf(st[pri], w, j)
    ensures LiveAll(OrAt(st, pri, j, ev)) == LiveAll(st)[pri := OrIn(LiveAll(st)[pri], w, ev)]
  {
    LiveOr(st[pri], w, j, ev);
    LiveUpdate(st, pri, st[pri][j := AnPending(w, st[pri][j].events + ev)]);
  }

  lemma LiveVoidAt(st: SlotStacks, pri: int, j: int, w: Watcher)
    requires 0 <= pri < NUMPRI && SlotOf(st[pri], w, j)
    ensures LiveAll(VoidAt(st, pri, j)) == LiveAll(st)[pri := ClearIn(LiveAll(st)[pri], w)]
  {
    LiveClear(st[pri], w, j);
    LiveUpdate(st, pri, st[pri][j := st[pri][j].(w := null)]);
  }

  predicate SameLengths(s: SlotStacks, t: SlotStacks)
  {
    forall p :: 0 <= p < NUMPRI ==> |s[p]| == |t[p]|
  }

  predicate EmptyAbove(s: SlotStacks, p: int)
  {
    forall q :: 0 <= q < NUMPRI && p < q ==> s[q] == []
  }

  ghost predicate SlotsDiffer(s: seq<AnPending>)
  {
    forall i, j :: 0 <= i < j < |s| && s[i].w != null ==> s[i].w != s[j].w
  }

  lemma {:induction false} LiveDistinct(s: seq<AnPending>)
    requires SlotsDiffer(s)
    ensures Distinct(Live(s))
    ensures forall x :: x in Live(s) ==> exists j :: 0 <= j < |s| && s[j].w == x.w
    decreases |s|
  {
    if s != [] {
      var front, e := s[..|s| - 1], s[|s| - 1];
      LiveDistinct(front);
      forall x | x in Live(s) ensures exists j :: 0 <= j < |s| && s[j].w == x.w {
        if x in Live(front) {
          var j :| 0 <= j < |front| && front[j].w == x.w;
          assert s[j].w == x.w;
        } else {
          assert s[|s| - 1].w == x.w;
        }
      }
      if e.w != null {
        forall i | 0 <= i < |Live(front)| ensures Live(front)[i].w != e.w {
          assert Live(front)[i] in Live(front);
          var j :| 0 <= j < |front| && front[j].w == Live(front)[i].w;
          assert s[j].w == front[j].w;
        }
      }
    }
  }

  lemma Regroup(a: seq<Fed>, b: seq<Fed>, c: seq<Fed>)
    ensures a + (b + c) == (a + b) + c
  {
  }

  lemma NoCalls(st: SlotStacks, script: seq<seq<Op>>)
    requires ScriptInRange(script) && EmptyAbove(st, -1)
    ensures Calls(LiveAll(st), script) == []
  {
    assert forall p :: 0 <= p < NUMPRI ==> LiveAll(st)[p] == [];
  }

  /** Slots point to watchers of the right priority, and watchers back to their slots; `but` (if
      any) is on no stack, whatever it remembers. */
  ghost predicate SlotsOk(st: SlotStacks, ws: set<Watcher>, but: Watcher?)
    reads ws`pending, ws`priority
  {
    && (forall p, j :: 0 <= p < NUMPRI && 0 <= j < |st[p]| && st[p][j].w != null ==>
          st[p][j].w in ws && Pri(st[p][j].w) == p && st[p][j].w.pending == j + 1 && st[p][j].w != but)
    && (forall u :: u in ws && u != but && u.pending != 0 ==>
          0 <= Pri(u) < NUMPRI && u.pending <= |st[Pri(u)]| && st[Pri(u)][u.pending - 1].w == u)
  }

  lemma PopOk(st: SlotStacks, ws: set<Watcher>, p: int)
    requires SlotsOk(st, ws, null) && 0 <= p < NUMPRI && st[p] != []
    ensures SlotsOk(st[p := st[p][..|st[p]| - 1]], ws, st[p][|st[p]| - 1].w)
    ensures st[p][|st[p]| - 1].w != null ==> st[p][|st[p]| - 1].w in ws
  {
  }

  lemma VoidOk(st: SlotStacks, ws: set<Watcher>, p: int, j: int)
    requires SlotsOk(st, ws, null) && 0 <= p < NUMPRI && 0 <= j < |st[p]| && st[p][j].w != null
    ensures SlotsOk(VoidAt(st, p, j), ws, st[p][j].w) && SameLengths(VoidAt(st, p, j), st)
  {
  }

  lemma OrOk(st: SlotStacks, ws: set<Watcher>, p: int, j: int, ev: Events)
    requires SlotsOk(st, ws, null) && 0 <= p < NUMPRI && 0 <= j < |st[p]|
    ensures SlotsOk(OrAt(st, p, j, ev), ws, null)
  {
  }

  lemma PushOk(st: SlotStacks, ws: set<Watcher>, p: int, w: Watcher, ev: Events)
    requires SlotsOk(st, ws, w) && 0 <= p < NUMPRI && w in ws && Pri(w) == p && w.pending == |st[p]| + 1
    ensures SlotsOk(st[p := st[p] + [AnPending(w, ev)]], ws, null)
  {
  }

  /** pendings, pendingcnt and pendingpri of a loop. */
  class PendingStacks {
    var stacks: SlotStacks
    var pendingpri: int
    ghost const ws: set<Watcher>      // every watcher that may ever be fed

    ghost predicate Ok()
      reads this`stacks, ws`pending, ws`priority
    {
      SlotsOk(stacks, ws, null)
    }

    /** The invariant for all watchers but `w`, which is on no stack. */
    ghost predicate OkBut(w: Watcher)
      reads this`stacks, ws`pending, ws`priority
    {
      SlotsOk(stacks, ws, w)
    }

    /** The state of the reference model. */
    ghost function Model(): Stacks
      reads this`stacks
    {
      LiveAll(stacks)
    }

    constructor (ghost universe: set<Watcher>)
      requires forall u :: u in universe ==> u.pending == 0
      ensures ws == universe && Ok() && Model() == [[], [], [], [], []]
    {
      stacks, pendingpri, ws := [[], [], [], [], []], 0, universe;
    }

    /** Changes elsewhere do not concern the stacks. */
    twostate lemma Unconcerned()
      requires old(Ok()) && unchanged(this)
      requires forall u :: u in ws ==> u.pending == old(u.pending)
      requires forall u :: u in ws && u.pending != 0 ==> u.priority == old(u.priority)
      ensures Ok()
    {
    }

    /** A watcher on no stack may remember anything. */
    twostate lemma Marked(w: Watcher)
      requires old(Ok()) && old(w.pending) == 0 && unchanged(this)
      requires forall u :: u in ws ==> u.priority == old(u.priority) && (u != w ==> u.pending == old(u.pending))
      ensures OkBut(w)
    {
    }

    /** A watcher on no stack may be marked as not pending. */
    twostate lemma Forgotten(w: Watcher)
      requires old(OkBut(w)) && unchanged(this) && w.pending == 0
      requires forall u :: u in ws ==> u.priority == old(u.priority) && (u != w ==> u.pending == old(u.pending))
      ensures Ok()
    {
    }

    lemma Slots(w: Watcher)
      requires Ok() && w in ws && 0 <= Pri(w) < NUMPRI
      ensures w.pending != 0 ==> SlotOf(stacks[Pri(w)], w, w.pending - 1)
      ensures Has(Live(stacks[Pri(w)]), w) <==> w.pending != 0
    {
      LiveHas(stacks[Pri(w)], w);
    }

    lemma HasPriority(w: Watcher)
      requires Ok() && w in ws && w.pending != 0
      ensures 0 <= Pri(w) < NUMPRI
    {
    }

    method OrSlot(pri: int, j: int, revents: Events)
      requires Ok() && 0 <= pri < NUMPRI && 0 <= j < |stacks[pri]|
      modifies this`stacks
      ensures Ok() && stacks == OrAt(old(stacks), pri, j, revents)
    {
      hide SlotsOk;
      OrOk(stacks, ws, pri, j, revents);
      stacks := stacks[pri := stacks[pri][j := AnPending(stacks[pri][j].w, stacks[pri][j].events + revents)]];
    }

    method PushSlot(w: Watcher, pri: int, revents: Events)
      requires OkBut(w) && 0 <= pri < NUMPRI && w in ws && Pri(w) == pri && w.pending == |stacks[pri]| + 1
      modifies this`stacks
      ensures Ok() && stacks == old(stacks)[pri := old(stacks)[pri] + [AnPending(w, revents)]]
    {
      hide SlotsOk;
      PushOk(stacks, ws, pri, w, revents);
      stacks := stacks[pri := stacks[pri] + [AnPending(w, revents)]];
    }

    method VoidSlot(w: Watcher, pri: int, j: int)
      requires Ok() && 0 <= pri < NUMPRI && SlotOf(stacks[pri], w, j) && w in ws
      modifies this`stacks
      ensures OkBut(w) && stacks == VoidAt(old(stacks), pri, j) && SameLengths(stacks, old(stacks))
    {
      VoidOk(stacks, ws, pri, j);
      stacks := stacks[pri := stacks[pri][j := stacks[pri][j].(w := null)]];
    }

    /** ev_feed_event for a watcher that is pending already. */
    method FeedAgain(w: Watcher, revents: Events)
      requires Ok() && w in ws && 0 <= Pri(w) < NUMPRI && w.pending != 0
      modifies this`stacks
      ensures Ok() && Model() == Apply(old(Model()), Feed(w, Pri(w), revents))
    {
      Slots(w);
      LiveOrAt(stacks, Pri(w), w.pending - 1, w, revents);
      OrSlot(Pri(w), w.pending - 1, revents);
    }

    /** ev_feed_event for a watcher that is not pending. */
    method FeedFirst(w: Watcher, revents: Events)
      requires Ok() && w in ws && 0 <= Pri(w) < NUMPRI && w.pending == 0
      modifies this`stacks, w`pending
      ensures Ok() && Model() == Apply(old(Model()), Feed(w, Pri(w), revents))
      ensures w.pending == |old(stacks)[Pri(w)]| + 1
    {
      hide SlotsOk, LiveAll, Live, Apply, Has;
      Slots(w);
      var pri := Pri(w);
      LivePushAt(stacks, pri, w, revents);
      w.pending := |stacks[pri]| + 1;
      Marked(w);
      PushSlot(w, pri, revents);
    }

    /** ev_feed_event */
    method FeedEvent(w: Watcher, revents: Events)
      requires Ok() && w in ws && 0 <= Pri(w) < NUMPRI
      modifies this`stacks, this`pendingpri, w`pending
      ensures Ok() && Model() == Apply(old(Model()), Feed(w, Pri(w), revents))
      ensures pendingpri == NUMPRI - 1
      ensures w.pending == if old(w.pending) != 0 then old(w.pending) else |old(stacks)[Pri(w)]| + 1
    {
      pendingpri := NUMPRI - 1;
      if w.pending != 0 { FeedAgain(w, revents); } else { FeedFirst(w, revents); }
    }

    lemma WithinStack()
      requires Ok()
      ensures forall u :: u in ws && 0 <= Pri(u) < NUMPRI ==> u.pending <= |stacks[Pri(u)]|
    {
    }

    /** A watcher that was not pending ends up above all others of its priority. */
    method FeedOnTop(w: Watcher, revents: Events)
      requires Ok() && w in ws && 0 <= Pri(w) < NUMPRI
      modifies this`stacks, this`pendingpri, w`pending
      ensures Ok() && Model() == Apply(old(Model()), Feed(w, Pri(w), revents))
      ensures w.pending != 0 && (old(w.pending) != 0 ==> w.pending == old(w.pending))
      ensures old(w.pending) == 0 ==> forall u :: u in ws && u != w && Pri(u) == Pri(w) ==> u.pending < w.pending
    {
      WithinStack();
      FeedEvent(w, revents);
    }

    /** clear_pending for a watcher that is pending. */
    method Void(w: Watcher)
      requires Ok() && w in ws && w.pending != 0
      modifies this`stacks, w`pending
      ensures Ok() && w.pending == 0 && SameLengths(stacks, old(stacks))
      ensures Model() == Apply(old(Model()), Clear(w, Pri(w)))
    {
      hide SlotsOk, LiveAll, Live, ClearIn, Has, SlotOf;
      HasPriority(w);
      Slots(w);
      LiveVoidAt(stacks, Pri(w), w.pending - 1, w);
      VoidSlot(w, Pri(w), w.pending - 1);
      label voided:
      w.pending := 0;
      Forgotten@voided(w);
    }

    /** clear_pending */
    method ClearPending(w: Watcher)
      requires Ok() && w in ws
      modifies this`stacks, w`pending
      ensures Ok() && w.pending == 0 && SameLengths(stacks, old(stacks))
      ensures 0 <= Pri(w) < NUMPRI ==> Model() == Apply(old(Model()), Clear(w, Pri(w)))
      ensures old(w.pending) == 0 ==> stacks == old(stacks)
    {
      if w.pending != 0 {
        Void(w);
      } else if 0 <= Pri(w) < NUMPRI {
        Slots(w);
        ClearAbsent(Live(stacks[Pri(w)]), w);
      }
    }

    /** The operations concern watchers of this loop and name their priorities rightly. */
    ghost predicate OpsOk(ops: seq<Op>)
      reads ws`priority
    {
      forall op :: op in ops ==> op.w in ws && Pri(op.w) == op.pri && 0 <= op.pri < NUMPRI
    }

    ghost predicate ScriptOk(script: seq<seq<Op>>)
      reads ws`priority
    {
      forall i :: 0 <= i < |script| ==> OpsOk(script[i])
    }

    method Do(op: Op)
      requires Ok() && op.w in ws && Pri(op.w) == op.pri && 0 <= op.pri < NUMPRI
      modifies this, ws`pending
      ensures Ok() && Model() == Apply(old(Model()), op)
      ensures pendingpri == NUMPRI - 1 || (pendingpri == old(pendingpri) && SameLengths(stacks, old(stacks)))
    {
      match op
      case Feed(w, _, events) => FeedEvent(w, events);
      case Clear(w, _) => ClearPending(w);
    }

    /** A callback that performs `ops`. */
    method RunCallback(ops: seq<Op>)
      requires Ok() && OpsOk(ops)
      modifies this, ws`pending
      ensures Ok() && Model() == ApplyAll(old(Model()), ops)
      ensures pendingpri == NUMPRI - 1 || (pendingpri == old(pendingpri) && SameLengths(stacks, old(stacks)))
    {
      var i := 0;
      while i < |ops|
        invariant 0 <= i <= |ops| && Ok()
        invariant ApplyAll(Model(), ops[i..]) == ApplyAll(old(Model()), ops)
        invariant pendingpri == NUMPRI - 1 || (pendingpri == old(pendingpri) && SameLengths(stacks, old(stacks)))
      {
        assert ops[i..][0] == ops[i] && ops[i..][1..] == ops[i + 1..];
        Do(ops[i]);
        i := i + 1;
      }
    }

    /** --pendingcnt */
    method DropSlot(p: int)
      requires Ok() && 0 <= p < NUMPRI && stacks[p] != []
      modifies this`stacks
      ensures stacks == old(stacks)[p := old(stacks)[p][..|old(stacks)[p]| - 1]]
      ensures var w := old(stacks)[p][|old(stacks)[p]| - 1].w;
        if w == null then Ok() else w in ws && OkBut(w)
    {
      PopOk(stacks, ws, p);
      stacks := stacks[p := stacks[p][..|stacks[p]| - 1]];
    }

    /** Takes the top slot off a stack. */
    method PopSlot(p: int) returns (e: AnPending)
      requires Ok() && 0 <= p < NUMPRI && stacks[p] != []
      modifies this`stacks, ws`pending
      ensures Ok() && e == old(stacks)[p][|old(stacks)[p]| - 1]
      ensures stacks == old(stacks)[p := old(stacks)[p][..|old(stacks)[p]| - 1]]
    {
      e := stacks[p][|stacks[p]| - 1];
      DropSlot(p);
      if e.w != null {
        label dropped:
        e.w.pending := 0;
        Forgotten@dropped(e.w);
      }
    }

    lemma ModelOfPop(st: SlotStacks, p: int)
      requires 0 <= p < NUMPRI && st[p] != [] && EmptyAbove(st, p)
      ensures var l, e := LiveAll(st), st[p][|st[p]| - 1];
        var l' := LiveAll(st[p := st[p][..|st[p]| - 1]]);
        && (e.w == null ==> l' == l)
        && (e.w != null ==> Highest(l, NUMPRI - 1) == p && l[p][|l[p]| - 1] == Fed(e.w, e.events)
                            && l' == l[p := l[p][..|l[p]| - 1]])
      ensures Lengths(st[p := st[p][..|st[p]| - 1]]) < Lengths(st)
    {
      LiveUpdate(st, p, st[p][..|st[p]| - 1]);
      assert LiveAll(st)[p] == Live(st[p]);
      assert st[p][|st[p]| - 1].w != null ==> Live(st[p])[..|Live(st[p])| - 1] == Live(st[p][..|st[p]| - 1]);
    }

    /** The next callback: it does what the script says first, or nothing. */
    method Callback(ghost p: int, script: seq<seq<Op>>) returns (rest: seq<seq<Op>>)
      requires Ok() && ScriptOk(script) && ScriptInRange(script) && pendingpri == p && EmptyAbove(stacks, p)
      modifies this, ws`pending
      ensures Ok() && ScriptInRange(rest) && ScriptOk(rest) && rest == Rest(script)
      ensures script == [] ==> stacks == old(stacks)
      ensures Model() == if script == [] then old(Model()) else ApplyAll(old(Model()), script[0])
      ensures pendingpri == NUMPRI - 1 || (pendingpri == p && EmptyAbove(stacks, p))
    {
      rest := script;
      if script != [] {
        rest := script[1..];
        RunCallback(script[0]);
      }
    }

    /** One dispatch: the top slot of the stack `p` is taken and its watcher, if any, is called. */
    method Dispatch(p: int, script: seq<seq<Op>>) returns (e: AnPending, rest: seq<seq<Op>>)
      requires Ok() && ScriptOk(script) && ScriptInRange(script)
      requires 0 <= p < NUMPRI && pendingpri == p && stacks[p] != [] && EmptyAbove(stacks, p)
      modifies this, ws`pending
      ensures Ok() && ScriptInRange(rest) && ScriptOk(rest)
      ensures e.w == null ==> Model() == old(Model()) && rest == script
      ensures e.w != null ==> Called(old(Model()), p, script, Fed(e.w, e.events), Model()) && rest == Rest(script)
      ensures rest == script ==> Lengths(stacks) < old(Lengths(stacks))
      ensures pendingpri == NUMPRI - 1 || (pendingpri == p && EmptyAbove(stacks, p))
    {
      ModelOfPop(stacks, p);
      e := PopSlot(p);
      rest := script;
      if e.w != null {
        rest := Callback(p, script);
      }
    }

    /** A dispatch, appended to the log; `all` are the calls of the whole run. */
    method DispatchLogged(log0: seq<Fed>, script: seq<seq<Op>>, ghost all: seq<Fed>) returns (log: seq<Fed>, rest: seq<seq<Op>>)
      requires Ok() && ScriptOk(script) && ScriptInRange(script) && all == log0 + Calls(Model(), script)
      requires 0 <= pendingpri < NUMPRI && stacks[pendingpri] != [] && EmptyAbove(stacks, pendingpri)
      modifies this, ws`pending
      ensures Ok() && ScriptInRange(rest) && ScriptOk(rest) && all == log + Calls(Model(), rest)
      ensures |rest| < |script| || (rest == script && Lengths(stacks) < old(Lengths(stacks)))
      ensures 0 <= pendingpri < NUMPRI && EmptyAbove(stacks, pendingpri)
    {
      var e;
      e, rest := Dispatch(pendingpri, script);
      log := log0;
      if e.w != null {
        var c := Fed(e.w, e.events);
        log := log0 + [c];
        CallsCons(old(Model()), old(pendingpri), script, c, Model());
        Regroup(log0, [c], Calls(Model(), rest));
      }
    }

    /** One round of ev_invoke_pending: steps to the next priority and serves stacks until the one at
        pendingpri is empty, starting over from the top whenever a callback feeds a watcher. */
    method ServeStack(log0: seq<Fed>, script: seq<seq<Op>>, ghost all: seq<Fed>) returns (log: seq<Fed>, rest: seq<seq<Op>>)
      requires Ok() && ScriptOk(script) && ScriptInRange(script) && all == log0 + Calls(Model(), script)
      requires 0 < pendingpri <= NUMPRI && EmptyAbove(stacks, pendingpri - 1)
      modifies this, ws`pending
      ensures Ok() && ScriptInRange(rest) && ScriptOk(rest) && all == log + Calls(Model(), rest)
      ensures 0 <= pendingpri < NUMPRI && EmptyAbove(stacks, pendingpri - 1)
      ensures |rest| < |script| || (rest == script && Lengths(stacks) < old(Lengths(stacks)))
           || (rest == script && stacks == old(stacks) && pendingpri < old(pendingpri))
    {
      hide SlotsOk, LiveAll, Calls, ScriptInRange;
      log, rest := log0, script;
      pendingpri := pendingpri - 1;
      while stacks[pendingpri] != []
        invariant Ok() && ScriptInRange(rest) && ScriptOk(rest) && all == log + Calls(Model(), rest)
        invariant 0 <= pendingpri < NUMPRI && EmptyAbove(stacks, pendingpri)
        invariant |rest| < |script| || (rest == script && Lengths(stacks) < old(Lengths(stacks)))
               || (rest == script && stacks == old(stacks) && pendingpri < old(pendingpri))
        decreases |rest|, Lengths(stacks)
      {
        log, rest := DispatchLogged(log, rest, all);
      }
    }

    lemma NobodyPending()
      requires Ok() && EmptyAbove(stacks, -1)
      ensures forall u :: u in ws ==> u.pending == 0
    {
    }

    // ---------- the slots and the reference model ----------

    /** The priority of every watcher. */
    ghost function Home(): map<Watcher, int>
      reads ws`priority
    {
      map u | u in ws :: Pri(u)
    }

    /** The stacks satisfy what the theorems about the reference model ask for. */
    lemma ModelTidy(script: seq<seq<Op>>)
      requires Ok() && ScriptOk(script)
      ensures Tidy(Model(), Home()) && ScriptAtHome(script, Home()) && ScriptInRange(script)
    {
      forall p | 0 <= p < NUMPRI
        ensures Distinct(Model()[p])
        ensures forall i :: 0 <= i < |Model()[p]| ==> Model()[p][i].w in ws && Pri(Model()[p][i].w) == p
      {
        assert SlotsDiffer(stacks[p]);
        LiveDistinct(stacks[p]);
        forall i | 0 <= i < |Model()[p]| ensures Model()[p][i].w in ws && Pri(Model()[p][i].w) == p {
          assert Model()[p][i] in Live(stacks[p]);
          var j :| 0 <= j < |stacks[p]| && stacks[p][j].w == Model()[p][i].w;
        }
      }
    }

    /** Of two pending watchers with one priority the one in the later slot is called first. */
    lemma LaterSlotFirst(u: Watcher, v: Watcher, script: seq<seq<Op>>, n: nat)
      requires Ok() && ScriptOk(script) && ScriptInRange(script)
      requires u in ws && v in ws && Pri(u) == Pri(v) && 0 < v.pending < u.pending
      requires n < |Calls(Model(), script)| && Calls(Model(), script)[n].w == v
      requires forall k :: 0 <= k < n && k < |script| ==> Spares(script[k], u, v)
      ensures exists m :: 0 <= m < n && Calls(Model(), script)[m].w == u
    {
      ModelTidy(script);
      LiveAbove(stacks[Pri(u)], u.pending - 1, v.pending - 1);
      LaterQueuedFirst(Model(), script, Home(), Pri(u), u, v, n);
    }

    /** ev_invoke_pending, with callbacks that perform `script` in the order in which they are
        called (and do nothing once the script is used up): the calls are those of the reference
        model, and nothing is left pending. */
    method InvokePending(script: seq<seq<Op>>) returns (log: seq<Fed>)
      requires Ok() && ScriptOk(script) && ScriptInRange(script)
      modifies this, ws`pending
      ensures Ok() && log == Calls(old(Model()), script)
      ensures EmptyAbove(stacks, -1) && forall u :: u in ws ==> u.pending == 0
    {
      ghost var all := Calls(Model(), script);
      var rest := script;
      log := [];
      pendingpri := NUMPRI;
      while pendingpri != 0
        invariant 0 <= pendingpri <= NUMPRI && Ok() && ScriptInRange(rest) && ScriptOk(rest)
        invariant EmptyAbove(stacks, pendingpri - 1) && all == log + Calls(Model(), rest)
        decreases |rest|, Lengths(stacks), pendingpri
      {
        log, rest := ServeStack(log, rest, all);
      }
      NoCalls(stacks, rest);
      NobodyPending();
    }
  }
}

/** The 4-ary heap of timed watchers: entries cache the watcher's deadline, and every watcher
  knows its own slot.  The first element lives at index 3, so that the children of a node fill
  one aligned group of four.
*/
module EvHeap {

  /** The fields of a watcher that the scheduler reads and writes. */
  class Watcher {
    const timer: bool      // an ev_timer, as opposed to any other kind of watcher
    var active: nat        // 0, or the slot in the owning array
    var pending: nat       // 0, or 1 + the slot in the pending stack
    var priority: int
    var at: real
    var repeat_: real

    constructor (timer: bool, priority: int, after: real, repeat_: real)
      ensures this.timer == timer && this.priority == priority && at == after && this.repeat_ == repeat_
      ensures active == 0 && pending == 0
    {
      this.timer, this.priority, at, this.repeat_ := timer, priority, after, repeat_;
      active, pending := 0, 0;
    }
  }

  datatype Anhe = Anhe(w: Watcher, at: real)

  const DHEAP: int := 4
  const HEAP0: int := DHEAP - 1

  /** C division, which truncates toward zero. */
  function CDiv(a: int, b: int): int
    requires b > 0
  {
    if a >= 0 then a / b else -((-a) / b)
  }

  /** HPARENT: the root is its own parent because the division truncates. */
  function Parent(k: int): int { CDiv(k - HEAP0 - 1, DHEAP) + HEAP0 }

  /** Index of the first of the four children of `k`. */
  function FirstChild(k: int): int { DHEAP * (k - HEAP0) + HEAP0 + 1 }

  lemma ParentChild(i: int)
    requires HEAP0 <= i
    ensures i == HEAP0 ==> Parent(i) == i
    ensures i > HEAP0 ==> HEAP0 <= Parent(i) < i
    ensures i > HEAP0 ==> FirstChild(Parent(i)) <= i < FirstChild(Parent(i)) + DHEAP
  {
  }

  lemma ChildParent(k: int, i: int)
    requires HEAP0 <= k && FirstChild(k) <= i < FirstChild(k) + DHEAP
    ensures i > HEAP0 && Parent(i) == k
  {
  }

  // ---------- heap order, as a property of the sequence of entries ----------

  /** `n` entries from HEAP0 on lie inside `h`. */
  predicate Fits(h: seq<Anhe>, n: int) { 0 <= n && (n > 0 ==> HEAP0 + n <= |h|) }

  ghost predicate Ordered(h: seq<Anhe>, n: int)
    requires Fits(h, n)
  {
    forall i {:trigger Parent(i)} :: HEAP0 < i < HEAP0 + n ==> HEAP0 <= Parent(i) < i && h[Parent(i)].at <= h[i].at
  }

  /** Heap order, except that the entry at `k` may be too small for its place. */
  ghost predicate OrderedUp(h: seq<Anhe>, n: int, k: int)
    requires Fits(h, n)
  {
    forall i {:trigger Parent(i)} :: HEAP0 < i < HEAP0 + n ==>
      && HEAP0 <= Parent(i) < i
      && (i != k ==> h[Parent(i)].at <= h[i].at)
      && (Parent(i) == k && k > HEAP0 ==> HEAP0 <= Parent(k) < k && h[Parent(k)].at <= h[i].at)
  }

  /** Heap order, except that the entry at `k` may be too large for its place. */
  ghost predicate OrderedDown(h: seq<Anhe>, n: int, k: int)
    requires Fits(h, n)
  {
    forall i {:trigger Parent(i)} :: HEAP0 < i < HEAP0 + n ==>
      && HEAP0 <= Parent(i) < i
      && (Parent(i) != k ==> h[Parent(i)].at <= h[i].at)
      && (Parent(i) == k && k > HEAP0 ==> HEAP0 <= Parent(k) < k && h[Parent(k)].at <= h[i].at)
  }

  function Swap(h: seq<Anhe>, i: int, j: int): seq<Anhe>
    requires 0 <= i < |h| && 0 <= j < |h|
  {
    h[i := h[j]][j := h[i]]
  }

  lemma UpStep(h: seq<Anhe>, n: int, k: int)
    requires Fits(h, n) && HEAP0 < k < HEAP0 + n && OrderedUp(h, n, k)
    requires HEAP0 <= Parent(k) < k && h[k].at < h[Parent(k)].at
    ensures OrderedUp(Swap(h, k, Parent(k)), n, Parent(k))
  {
    var p := Parent(k);
    var g := Swap(h, k, p);
    ParentChild(p);
    forall i {:trigger Parent(i)} | HEAP0 < i < HEAP0 + n
      ensures HEAP0 <= Parent(i) < i && (i != p ==> g[Parent(i)].at <= g[i].at)
      ensures Parent(i) == p && p > HEAP0 ==> HEAP0 <= Parent(p) < p && g[Parent(p)].at <= g[i].at
    {
      ParentChild(i);
    }
  }

  lemma UpDone(h: seq<Anhe>, n: int, k: int)
    requires Fits(h, n) && HEAP0 <= k < HEAP0 + n && OrderedUp(h, n, k)
    requires k == HEAP0 || (HEAP0 <= Parent(k) < k && h[Parent(k)].at <= h[k].at)
    ensures Ordered(h, n)
  {
  }

  /** `c` is the first child of `k` whose deadline is least. */
  ghost predicate IsMinChild(h: seq<Anhe>, n: int, k: int, c: int)
    requires Fits(h, n)
  {
    && HEAP0 < c < HEAP0 + n && Parent(c) == k
    && forall i {:trigger Parent(i)} :: HEAP0 < i < HEAP0 + n && Parent(i) == k ==>
         h[c].at <= h[i].at && (i < c ==> h[c].at < h[i].at)
  }

  lemma MinChildIgnoresParent(h: seq<Anhe>, n: int, k: int, c: int, he: Anhe)
    requires Fits(h, n) && HEAP0 <= k < HEAP0 + n && IsMinChild(h, n, k, c)
    ensures IsMinChild(h[k := he], n, k, c)
  {
    ParentChild(c);
    forall i {:trigger Parent(i)} | HEAP0 < i < HEAP0 + n && Parent(i) == k
      ensures i != k
    {
      ParentChild(i);
    }
  }

  lemma DownStep(h: seq<Anhe>, n: int, k: int, c: int)
    requires Fits(h, n) && HEAP0 <= k < HEAP0 + n && OrderedDown(h, n, k)
    requires IsMinChild(h, n, k, c) && h[c].at < h[k].at
    ensures OrderedDown(Swap(h, k, c), n, c)
  {
    var g := Swap(h, k, c);
    forall i {:trigger Parent(i)} | HEAP0 < i < HEAP0 + n
      ensures HEAP0 <= Parent(i) < i && (Parent(i) != c ==> g[Parent(i)].at <= g[i].at)
      ensures Parent(i) == c ==> HEAP0 <= Parent(c) < c && g[Parent(c)].at <= g[i].at
    {
      ParentChild(i);
      ParentChild(c);
      if k > HEAP0 { ParentChild(k); }
    }
  }

  lemma DownDone(h: seq<Anhe>, n: int, k: int)
    requires Fits(h, n) && HEAP0 <= k < HEAP0 + n && OrderedDown(h, n, k)
    requires HEAP0 + n <= FirstChild(k) || exists c :: IsMinChild(h, n, k, c) && h[k].at <= h[c].at
    ensures Ordered(h, n)
  {
    forall i {:trigger Parent(i)} | HEAP0 < i < HEAP0 + n && Parent(i) == k
      ensures h[k].at <= h[i].at
    {
      ParentChild(i);
    }
  }

  /** The root of a heap is its minimum. */
  lemma {:induction false} RootIsLeast(h: seq<Anhe>, n: int, i: int)
    requires Fits(h, n) && Ordered(h, n) && HEAP0 <= i < HEAP0 + n
    ensures h[HEAP0].at <= h[i].at
    decreases i
  {
    if i > HEAP0 {
      ParentChild(i);
      RootIsLeast(h, n, Parent(i));
    }
  }

  // ---------- which watchers are in the heap ----------

  /** The heap holds exactly the watchers `ws`, each of them once, at the slot it remembers and
      with its deadline cached. */
  ghost predicate Holds(h: seq<Anhe>, n: int, ws: set<Watcher>)
    requires Fits(h, n)
    reads ws`active, ws`at
  {
    && (forall i :: HEAP0 <= i < HEAP0 + n ==> h[i].w in ws && h[i].w.active == i && h[i].at == h[i].w.at)
    && (forall u :: u in ws ==> HEAP0 <= u.active < HEAP0 + n && h[u.active].w == u)
  }

  /** The same, except that the watcher at `hole` need not know its slot. */
  ghost predicate HoldsBut(h: seq<Anhe>, n: int, hole: int, ws: set<Watcher>)
    requires Fits(h, n) && HEAP0 <= hole < HEAP0 + n
    reads ws`active, ws`at
  {
    && h[hole].w in ws && h[hole].at == h[hole].w.at
    && (forall i :: HEAP0 <= i < HEAP0 + n && i != hole ==>
          h[i].w in ws && h[i].w.active == i && h[i].at == h[i].w.at && h[i].w != h[hole].w)
    && (forall u :: u in ws && u != h[hole].w ==>
          HEAP0 <= u.active < HEAP0 + n && u.active != hole && h[u.active].w == u)
  }

  /** Slots before the heap and after `k` are untouched. */
  ghost predicate SameOutside(h: seq<Anhe>, g: seq<Anhe>, k: int)
  {
    |h| == |g| && forall i :: 0 <= i < |h| && (i < HEAP0 || k < i) ==> h[i] == g[i]
  }

  // ---------- the algorithms, in place ----------

  /** One round of sifting: the entry at `from` moves into the hole at `k`. */
  method Fill(heap: array<Anhe>, k: int, from: int, he: Anhe, ghost h: seq<Anhe>, ghost n: int, ghost ws: set<Watcher>)
    requires |h| == heap.Length && Fits(h, n)
    requires HEAP0 <= k < HEAP0 + n && h == heap[..][k := he] && HEAP0 <= from < HEAP0 + n && k != from
    requires HoldsBut(h, n, k, ws)
    modifies heap, ws`active
    ensures Swap(h, k, from) == heap[..][from := he] && HoldsBut(Swap(h, k, from), n, from, ws)
  {
    assert h[k] == he && h[from] == heap[from] && h[from].w in ws;
    heap[k] := heap[from];
    heap[k].w.active := k;
    assert Swap(h, k, from) == heap[..][from := he];
  }

  /** The end of sifting: `he` is put into the hole at `k`. */
  method Place(heap: array<Anhe>, k: int, he: Anhe, ghost h: seq<Anhe>, ghost n: int, ghost ws: set<Watcher>)
    requires |h| == heap.Length && Fits(h, n)
    requires HEAP0 <= k < HEAP0 + n && h == heap[..][k := he]
    requires HoldsBut(h, n, k, ws)
    modifies heap, ws`active
    ensures heap[..] == h && Holds(h, n, ws)
  {
    assert h[k] == he;
    heap[k] := he;
    he.w.active := k;
    assert heap[..] == h;
  }

  /** Moves the entry at `k0` towards the root. */
  method UpHeap(heap: array<Anhe>, k0: int, ghost n: int, ghost ws: set<Watcher>)
    requires Fits(heap[..], n) && HEAP0 <= k0 < HEAP0 + n
    requires OrderedUp(heap[..], n, k0) && HoldsBut(heap[..], n, k0, ws)
    modifies heap, ws`active
    ensures Ordered(heap[..], n) && Holds(heap[..], n, ws)
    ensures SameOutside(heap[..], old(heap[..]), k0)
  {
    hide Ordered, OrderedUp, Holds, HoldsBut;
    var he, k := heap[k0], k0;
    ghost var h := heap[..];
    while true
      invariant HEAP0 <= k <= k0
      invariant |h| == heap.Length && h == heap[..][k := he] && h[k] == he
      invariant OrderedUp(h, n, k) && HoldsBut(h, n, k, ws)
      invariant SameOutside(h, old(heap[..]), k0)
      decreases k
    {
      var p := Parent(k);
      ParentChild(k);
      if p == k || heap[p].at <= he.at { break; }
      UpStep(h, n, k);
      Fill(heap, k, p, he, h, n, ws);
      h := Swap(h, k, p);
      k := p;
    }
    UpDone(h, n, k);
    Place(heap, k, he, h, n, ws);
  }

  /** Least child of `k`, the first one among equals, or 0 when `k` has no child in the heap. */
  method MinChild(heap: array<Anhe>, n: int, k: int) returns (c: int)
    requires Fits(heap[..], n) && HEAP0 <= k < HEAP0 + n
    ensures c == 0 <==> HEAP0 + n <= FirstChild(k)
    ensures c != 0 ==> IsMinChild(heap[..], n, k, c)
  {
    var pos, end := FirstChild(k), HEAP0 + n;
    forall i {:trigger Parent(i)} | HEAP0 < i < HEAP0 + n && Parent(i) == k
      ensures pos <= i < pos + DHEAP
    {
      ParentChild(i);
    }
    if pos + DHEAP - 1 < end {
      c := pos;
      if heap[pos + 1].at < heap[c].at { c := pos + 1; }
      if heap[pos + 2].at < heap[c].at { c := pos + 2; }
      if heap[pos + 3].at < heap[c].at { c := pos + 3; }
    } else if pos < end {
      c := pos;
      if pos + 1 < end && heap[pos + 1].at < heap[c].at { c := pos + 1; }
      if pos + 2 < end && heap[pos + 2].at < heap[c].at { c := pos + 2; }
      // the same test for pos + 3 (ev.c:2266) cannot succeed here: that child would make the first case
    } else {
      return 0;
    }
    ChildParent(k, c);
  }

  /** One round of sifting down: returns the child that moved up into the hole, or 0 when
      `he` may stay at `k`. */
  method DownRound(heap: array<Anhe>, n: int, k: int, he: Anhe, ghost h: seq<Anhe>, ghost ws: set<Watcher>) returns (c: int)
    requires |h| == heap.Length && Fits(h, n)
    requires HEAP0 <= k < HEAP0 + n && h == heap[..][k := he]
    requires OrderedDown(h, n, k) && HoldsBut(h, n, k, ws)
    modifies heap, ws`active
    ensures c == 0 ==> h == heap[..][k := he] && Ordered(h, n) && HoldsBut(h, n, k, ws)
    ensures c != 0 ==> k < c < HEAP0 + n && Swap(h, k, c) == heap[..][c := he]
    ensures c != 0 ==> OrderedDown(Swap(h, k, c), n, c) && HoldsBut(Swap(h, k, c), n, c, ws)
  {
    c := MinChild(heap, n, k);
    if c == 0 { DownDone(h, n, k); return; }
    ParentChild(c);
    MinChildIgnoresParent(heap[..], n, k, c, he);
    if he.at <= heap[c].at { DownDone(h, n, k); return 0; }
    DownStep(h, n, k, c);
    Fill(heap, k, c, he, h, n, ws);
  }

  /** Moves the entry at `k0` away from the root. */
  method DownHeap(heap: array<Anhe>, n: int, k0: int, ghost ws: set<Watcher>)
    requires Fits(heap[..], n) && HEAP0 <= k0 < HEAP0 + n
    requires OrderedDown(heap[..], n, k0) && HoldsBut(heap[..], n, k0, ws)
    modifies heap, ws`active
    ensures Ordered(heap[..], n) && Holds(heap[..], n, ws)
    ensures SameOutside(heap[..], old(heap[..]), HEAP0 + n - 1)
  {
    hide Ordered, OrderedDown, Holds, HoldsBut, Parent;
    var he, k := heap[k0], k0;
    ghost var h := heap[..];
    while true
      invariant HEAP0 <= k < HEAP0 + n
      invariant |h| == heap.Length && h == heap[..][k := he]
      invariant OrderedDown(h, n, k) && HoldsBut(h, n, k, ws)
      invariant SameOutside(h, old(heap[..]), HEAP0 + n - 1)
      decreases HEAP0 + n - k
    {
      var c := DownRound(heap, n, k, he, h, ws);
      if c == 0 { break; }
      h := Swap(h, k, c);
      k := c;
    }
    Place(heap, k, he, h, n, ws);
  }

  /** Heap order but for the entry at `k`, whose neighbours are in order with each other. */
  ghost predicate OrderedBut(h: seq<Anhe>, n: int, k: int)
    requires Fits(h, n)
  {
    forall i {:trigger Parent(i)} :: HEAP0 < i < HEAP0 + n ==>
      && HEAP0 <= Parent(i) < i
      && (i != k && Parent(i) != k ==> h[Parent(i)].at <= h[i].at)
      && (Parent(i) == k && k > HEAP0 ==> HEAP0 <= Parent(k) < k && h[Parent(k)].at <= h[i].at)
  }

  /** Overwriting one entry of a heap leaves its neighbours in order. */
  lemma ReplaceOne(h: seq<Anhe>, n: int, k: int, e: Anhe)
    requires Fits(h, n) && HEAP0 <= k < HEAP0 + n && Ordered(h, n)
    ensures OrderedBut(h[k := e], n, k)
  {
    ParentChild(k);
    forall i {:trigger Parent(i)} | HEAP0 < i < HEAP0 + n
      ensures Parent(i) == k && k > HEAP0 ==> h[Parent(k)].at <= h[i].at
    {
      ParentChild(i);
    }
  }

  /** Repairs a heap in which only the entry at `k` is out of place, in whichever direction. */
  method AdjustHeap(heap: array<Anhe>, n: int, k: int, ghost ws: set<Watcher>)
    requires Fits(heap[..], n) && HEAP0 <= k < HEAP0 + n
    requires OrderedBut(heap[..], n, k) && HoldsBut(heap[..], n, k, ws)
    modifies heap, ws`active
    ensures Ordered(heap[..], n) && Holds(heap[..], n, ws)
    ensures SameOutside(heap[..], old(heap[..]), HEAP0 + n - 1)
  {
    ParentChild(k);
    if k > HEAP0 && heap[k].at <= heap[Parent(k)].at {
      UpHeap(heap, k, n, ws);
    } else {
      DownHeap(heap, n, k, ws);
    }
  }

  /** The members that sit in the first `m` slots. */
  ghost function Below(ws: set<Watcher>, m: int): set<Watcher>
    reads ws`active
  {
    set u | u in ws && u.active < HEAP0 + m
  }

  lemma PrefixHolds(h: seq<Anhe>, m: int, n: int, ws: set<Watcher>)
    requires 0 <= m < n && Fits(h, n) && Holds(h, n, ws) && Ordered(h, m)
    ensures HoldsBut(h, m + 1, HEAP0 + m, Below(ws, m + 1)) && OrderedUp(h, m + 1, HEAP0 + m)
    ensures forall i :: HEAP0 + m + 1 <= i < HEAP0 + n ==> h[i].w !in Below(ws, m + 1)
  {
    forall i {:trigger Parent(i)} | HEAP0 < i < HEAP0 + m + 1
      ensures HEAP0 <= Parent(i) < i && Parent(i) != HEAP0 + m
    {
      ParentChild(i);
    }
  }

  /** One round of ReHeap: the entry after the first `i` joins the heap they form. */
  method SiftIn(heap: array<Anhe>, i: int, ghost n: int, ghost ws: set<Watcher>)
    requires 0 <= i < n && Fits(heap[..], n)
    requires Ordered(heap[..], i) && Holds(heap[..], n, ws)
    modifies heap, ws`active
    ensures Ordered(heap[..], i + 1) && Holds(heap[..], n, ws)
    ensures SameOutside(heap[..], old(heap[..]), HEAP0 + n - 1)
  {
    PrefixHolds(heap[..], i, n, ws);
    UpHeap(heap, i + HEAP0, i + 1, Below(ws, i + 1));
  }

  /** Rebuilds a heap from entries in any order by sifting every one of them up in turn. */
  method ReHeap(heap: array<Anhe>, n: int, ghost ws: set<Watcher>)
    requires Fits(heap[..], n) && Holds(heap[..], n, ws)
    modifies heap, ws`active
    ensures Ordered(heap[..], n) && Holds(heap[..], n, ws)
    ensures SameOutside(heap[..], old(heap[..]), HEAP0 + n - 1)
  {
    var i := 0;
    while i < n
      invariant 0 <= i <= n
      invariant Ordered(heap[..], i) && Holds(heap[..], n, ws)
      invariant SameOutside(heap[..], old(heap[..]), HEAP0 + n - 1)
    {
      SiftIn(heap, i, n, ws);
      i := i + 1;
    }
  }

  // ---------- a heap with room to grow ----------

  lemma AppendOrder(h: seq<Anhe>, n: int, k: int, e: Anhe)
    requires 0 <= n && k == HEAP0 + n < |h| && Fits(h, n) && Ordered(h, n)
    ensures OrderedUp(h[k := e], n + 1, k)
  {
    forall i {:trigger Parent(i)} | HEAP0 < i < HEAP0 + n + 1
      ensures HEAP0 <= Parent(i) < i && Parent(i) != k
    {
      ParentChild(i);
    }
  }

  lemma AppendHolds(h: seq<Anhe>, n: int, k: int, e: Anhe, ws: set<Watcher>)
    requires 0 <= n && k == HEAP0 + n < |h| && Fits(h, n) && Holds(h, n, ws)
    requires e.w.active == k && e.at == e.w.at
    ensures HoldsBut(h[k := e], n + 1, k, ws + {e.w})
  {
  }

  /** Overwriting slot `k` with the last entry and dropping the last slot. */
  lemma MoveLast(h: seq<Anhe>, n: int, k: int, ws: set<Watcher>)
    requires 1 < n && Fits(h, n) && HEAP0 <= k < HEAP0 + n - 1 && Ordered(h, n) && Holds(h, n, ws)
    ensures var h' := h[k := h[HEAP0 + n - 1]];
      OrderedBut(h', n - 1, k) && HoldsBut(h', n - 1, k, ws - {h[k].w})
  {
    assert Ordered(h, n - 1);
    ReplaceOne(h, n - 1, k, h[HEAP0 + n - 1]);
    assert h[HEAP0 + n - 1].w.active == HEAP0 + n - 1;
  }

  lemma DropLast(h: seq<Anhe>, n: int, ws: set<Watcher>)
    requires 0 < n && Fits(h, n) && Ordered(h, n) && Holds(h, n, ws)
    ensures Ordered(h, n - 1) && Holds(h, n - 1, ws - {h[HEAP0 + n - 1].w})
  {
    assert h[HEAP0 + n - 1].w.active == HEAP0 + n - 1;
  }

  /** A growing array of heap entries: `timers`/`timercnt` and `periodics`/`periodiccnt`. */
  class TimedHeap {
    var slots: array<Anhe>
    var cnt: nat
    ghost var members: set<Watcher>    // the watchers in the heap

    ghost predicate Ok()
      reads `slots, `cnt, `members, slots, members`active, members`at
    {
      Fits(slots[..], cnt) && Ordered(slots[..], cnt) && Holds(slots[..], cnt, members)
    }

    constructor ()
      ensures Ok() && cnt == 0 && members == {} && fresh(slots)
    {
      slots, cnt, members := new Anhe[0], 0, {};
    }

    /** array_needsize: room for the slots below `need`; `fill` stands for uninitialised memory. */
    method NeedSize(need: nat, fill: Anhe)
      requires Ok()
      modifies this`slots
      ensures Ok() && need <= slots.Length && (slots == old(slots) || fresh(slots))
    {
      if need > slots.Length {
        var ncur := 2 * (slots.Length + 1);
        while need > ncur
          invariant ncur > slots.Length
          decreases need - ncur
        {
          ncur := 2 * ncur;
        }
        var base := slots;
        slots := new Anhe[ncur](i requires 0 <= i reads base => if i < base.Length then base[i] else fill);
        assert forall i :: 0 <= i < base.Length ==> slots[..][i] == base[..][i];
      }
    }

    /** Adds the watcher `w`, which has just been given the slot after the last, where there is room. */
    method Push(w: Watcher, k: int)
      requires Ok() && w.active == k == HEAP0 + cnt < slots.Length
      modifies this`cnt, this`members, slots, members`active, w`active
      ensures Ok() && members == old(members) + {w} && cnt == old(cnt) + 1
    {
      hide Ordered, OrderedUp, OrderedDown, OrderedBut, Holds, HoldsBut, Parent;
      ghost var h := slots[..];
      AppendOrder(h, cnt, k, Anhe(w, w.at));
      AppendHolds(h, cnt, k, Anhe(w, w.at), members);
      slots[k] := Anhe(w, w.at);
      assert slots[..] == h[k := Anhe(w, w.at)];
      cnt := cnt + 1;
      members := members + {w};
      UpHeap(slots, k, cnt, members);
    }

    /** Adds the watcher `w`, which has just been given the slot after the last. */
    method Add(w: Watcher)
      requires Ok() && w.active == HEAP0 + cnt
      modifies this, slots, members`active, w`active
      ensures Ok() && members == old(members) + {w} && cnt == old(cnt) + 1
      ensures slots == old(slots) || fresh(slots)
    {
      NeedSize(w.active + 1, Anhe(w, w.at));
      Push(w, w.active);
    }

    /** The last of `n` entries replaces the one at slot `k` and is sifted to its place. */
    method Refill(k: int, ghost ws: set<Watcher>)
      requires Fits(slots[..], cnt + 1) && Ordered(slots[..], cnt + 1) && Holds(slots[..], cnt + 1, ws)
      requires HEAP0 <= k < HEAP0 + cnt && members == ws - {slots[k].w}
      modifies slots, members`active
      ensures Ok()
    {
      hide Ordered, OrderedUp, OrderedDown, OrderedBut, Holds, HoldsBut, Parent;
      ghost var h := slots[..];
      MoveLast(h, cnt + 1, k, ws);
      slots[k] := slots[cnt + HEAP0];
      assert slots[..] == h[k := h[HEAP0 + cnt]];
      AdjustHeap(slots, cnt, k, members);
    }

    /** Removes the entry at slot `k`. */
    method RemoveAt(k: int)
      requires Ok() && HEAP0 <= k < HEAP0 + cnt
      modifies this`cnt, this`members, slots, (members - {slots[k].w})`active
      ensures Ok() && members == old(members) - {old(slots[k].w)} && cnt == old(cnt) - 1
    {
      cnt := cnt - 1;
      members := members - {slots[k].w};
      if k < cnt + HEAP0 {
        Refill(k, old(members));
      } else {
        DropLast(slots[..], cnt + 1, old(members));
      }
    }

    /** Re-caches the deadline of the watcher at slot `k` and repairs the heap around it. */
    method Recache(k: int)
      requires HEAP0 <= k < HEAP0 + cnt && Fits(slots[..], cnt) && Ordered(slots[..], cnt)
      requires HoldsBut(slots[..][k := Anhe(slots[k].w, slots[k].w.at)], cnt, k, members)
      modifies slots, members`active
      ensures Ok()
    {
      hide Ordered, OrderedUp, OrderedDown, OrderedBut, Holds, HoldsBut, Parent;
      ghost var h := slots[..];
      ReplaceOne(h, cnt, k, Anhe(slots[k].w, slots[k].w.at));
      slots[k] := Anhe(slots[k].w, slots[k].w.at);
      assert slots[..] == h[k := Anhe(h[k].w, h[k].w.at)];
      AdjustHeap(slots, cnt, k, members);
    }

    /** Re-caches the deadline of the root, which has grown, and sifts it down. */
    method SinkRoot()
      requires 0 < cnt && Fits(slots[..], cnt) && Ordered(slots[..], cnt)
      requires HoldsBut(slots[..][HEAP0 := Anhe(slots[HEAP0].w, slots[HEAP0].w.at)], cnt, HEAP0, members)
      modifies slots, members`active
      ensures Ok()
    {
      ghost var h := slots[..];
      ReplaceOne(h, cnt, HEAP0, Anhe(slots[HEAP0].w, slots[HEAP0].w.at));
      slots[HEAP0] := Anhe(slots[HEAP0].w, slots[HEAP0].w.at);
      assert slots[..] == h[HEAP0 := Anhe(h[HEAP0].w, h[HEAP0].w.at)];
      ParentChild(HEAP0);
      DownHeap(slots, cnt, HEAP0, members);
    }
  }
}

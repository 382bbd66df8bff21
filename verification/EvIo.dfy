/** I/O watchers: per descriptor a linked list of watchers, and lazy reconciliation of their masks
  with the backend.  Starting or stopping a watcher only notes its descriptor as changed; the next
  fd_reify recomputes the masks of the noted descriptors and tells the backend what is new.
*/
module EvIo {
  import opened EvHeap
  import opened EvPending
  import opened EvPoll

  const EV__IOFDSET: nat := 7
  const EV_ANFD_REIFY: nat := 0
  const MASK: Bits := {EV_READ, EV_WRITE, EV_EXCEPT}

  class IoWatcher {
    const base: Watcher       // what it has in common with watchers of other kinds
    const fd: nat
    var active: bool
    var events: Bits
    var next: IoWatcher?

    constructor (base: Watcher, fd: nat, events: Bits)
      ensures this.base == base && this.fd == fd && this.events == events && !active && next == null
    {
      this.base, this.fd, this.events, active, next := base, fd, events, false, null;
    }
  }

  /** What a loop knows of one descriptor: its watchers, the mask the backend has, and whether (and
      how) they may differ. */
  datatype Anfd = Anfd(head: IoWatcher?, events: Bits, reify: Bits)

  // ---------- wlist_*: singly linked lists ----------

  /** `l` are the watchers from `head` on. */
  ghost predicate Linked(head: IoWatcher?, l: seq<IoWatcher>)
    reads l`next
  {
    && head == (if l == [] then null else l[0])
    && (forall i :: 0 <= i < |l| - 1 ==> l[i].next == l[i + 1])
    && (l != [] ==> l[|l| - 1].next == null)
  }

  ghost predicate NoDup(l: seq<IoWatcher>) { forall i, j :: 0 <= i < j < |l| ==> l[i] != l[j] }

  function Without(l: seq<IoWatcher>, w: IoWatcher): (r: seq<IoWatcher>)
    ensures forall u :: u in r ==> u in l && u != w
    ensures forall u :: u in l && u != w ==> u in r
  {
    if l == [] then []
    else if l[0] == w then Without(l[1..], w)
    else
      assert l == [l[0]] + l[1..];
      [l[0]] + Without(l[1..], w)
  }

  lemma WithoutFirst(l: seq<IoWatcher>, w: IoWatcher)
    requires l != []
    ensures Without(l, w) == (if l[0] == w then [] else [l[0]]) + Without(l[1..], w)
  {
  }

  lemma {:induction false} WithoutAt(l: seq<IoWatcher>, i: int)
    requires NoDup(l) && 0 <= i < |l|
    ensures Without(l, l[i]) == l[..i] + l[i + 1..]
    decreases |l|
  {
    hide Without;
    var rest := l[1..];
    WithoutFirst(l, l[i]);
    if i == 0 {
      forall k | 0 <= k < |rest| ensures rest[k] != l[0] { assert rest[k] == l[k + 1]; }
      WithoutAbsent(rest, l[0]);
    } else {
      forall j, k | 0 <= j < k < |rest| ensures rest[j] != rest[k] { assert rest[j] == l[j + 1] && rest[k] == l[k + 1]; }
      WithoutAt(rest, i - 1);
      assert rest[i - 1] == l[i] && l[0] != l[i];
      assert [l[0]] + (rest[..i - 1] + rest[i..]) == l[..i] + l[i + 1..];
    }
  }

  lemma {:induction false} WithoutAbsent(l: seq<IoWatcher>, w: IoWatcher)
    requires w !in l
    ensures Without(l, w) == l
    decreases |l|
  {
    if l != [] { WithoutAbsent(l[1..], w); }
  }

  /** wlist_add */
  method WlistAdd(head: IoWatcher?, elem: IoWatcher, ghost l: seq<IoWatcher>) returns (head': IoWatcher?)
    requires Linked(head, l) && elem !in l
    modifies elem`next
    ensures Linked(head', [elem] + l) && head' == elem && elem.next == head
  {
    elem.next := head;
    head' := elem;
  }

  /** When node `i` skips the one after it, that one is off the list. */
  twostate lemma Skipped(l: seq<IoWatcher>, new i: int)
    requires 0 <= i < |l| - 1 && NoDup(l) && old(Linked(l[0], l))
    requires l[i].next == old(l[i + 1].next)
    requires forall u :: u in l && u != l[i] ==> u.next == old(u.next)
    ensures Linked(l[0], l[..i + 1] + l[i + 2..])
  {
    var r := l[..i + 1] + l[i + 2..];
    forall j | 0 <= j < |r| - 1 ensures r[j].next == r[j + 1] {
      if j > i { assert old(l[j + 1].next == l[j + 2]); }
    }
  }

  /** wlist_del */
  method WlistDel(head: IoWatcher?, elem: IoWatcher, ghost l: seq<IoWatcher>) returns (head': IoWatcher?)
    requires Linked(head, l) && NoDup(l)
    modifies l`next
    ensures Linked(head', Without(l, elem))
  {
    if head == null { return null; }
    if head == elem {
      WithoutAt(l, 0);
      return elem.next;
    }
    head' := head;
    var at := head;      // the node whose next field the loop looks at
    ghost var i := 0;
    while at.next != null
      invariant 0 <= i < |l| && l[i] == at && head' == l[0]
      invariant Linked(head, l) && elem !in l[..i + 1]
      invariant at.next == if i + 1 < |l| then l[i + 1] else null
      decreases |l| - i
    {
      if at.next == elem {
        WithoutAt(l, i + 1);
        at.next := elem.next;
        Skipped(l, i);
        return;
      }
      at := at.next;
      i := i + 1;
    }
    assert l == l[..i + 1];
    WithoutAbsent(l, elem);
  }

  // ---------- masks ----------

  /** The union of the masks of the watchers in `l`. */
  ghost function Wanted(l: seq<IoWatcher>): Bits
    reads l`events
  {
    if l == [] then {} else Wanted(l[..|l| - 1]) + l[|l| - 1].events
  }

  lemma {:induction false} WantedIs(l: seq<IoWatcher>, b: nat)
    ensures b in Wanted(l) <==> exists i :: 0 <= i < |l| && b in l[i].events
    decreases |l|
  {
    if l != [] {
      WantedIs(l[..|l| - 1], b);
      if i :| 0 <= i < |l| && b in l[i].events {
        assert i < |l| - 1 ==> l[..|l| - 1][i] == l[i];
      }
    }
  }

  /** The loop of fd_reify over the watchers of a descriptor. */
  method CollectEvents(head: IoWatcher?, ghost l: seq<IoWatcher>) returns (events: Bits)
    requires Linked(head, l)
    ensures events == Wanted(l)
  {
    events := {};
    var w := head;
    ghost var i := 0;
    while w != null
      invariant 0 <= i <= |l| && w == (if i < |l| then l[i] else null) && events == Wanted(l[..i])
      decreases |l| - i
    {
      events := events + w.events;
      assert l[..i + 1][..i] == l[..i];
      w := w.next;
      i := i + 1;
    }
    assert l[..i] == l;
  }

  /** `m` has exactly the non-empty masks in `anfds`. */
  ghost predicate Asked(m: map<int, Bits>, anfds: seq<Anfd>)
  {
    && (forall fd :: fd in m <==> 0 <= fd < |anfds| && anfds[fd].events != {})
    && (forall fd :: 0 <= fd < |anfds| && anfds[fd].events != {} ==> m[fd] == anfds[fd].events)
  }

  lemma AskedOf(m: map<int, Bits>, anfds: seq<Anfd>, fd: nat)
    requires Asked(m, anfds) && fd < |anfds|
    ensures anfds[fd].events == if fd in m then m[fd] else {}
  {
  }

  lemma MoreAsked(m: map<int, Bits>, anfds: seq<Anfd>, more: seq<Anfd>)
    requires Asked(m, anfds) && forall i :: 0 <= i < |more| ==> more[i].events == {}
    ensures Asked(m, anfds + more)
  {
  }

  lemma AskedStep(m: map<int, Bits>, anfds: seq<Anfd>, fd: nat, a: Anfd)
    requires Asked(m, anfds) && fd < |anfds|
    ensures Asked(if a.events == {} then m - {fd} else m[fd := a.events], anfds[fd := a])
    ensures a.events == anfds[fd].events ==> Asked(m, anfds[fd := a])
  {
  }

  /** `changes` lists exactly the marked descriptors, once each. */
  ghost predicate Listed(anfds: seq<Anfd>, changes: seq<nat>)
  {
    && (forall i, j :: 0 <= i < j < |changes| ==> changes[i] != changes[j])
    && (forall i :: 0 <= i < |changes| ==> changes[i] < |anfds| && anfds[changes[i]].reify != {})
    && (forall fd :: 0 <= fd < |anfds| && anfds[fd].reify != {} ==> fd in changes)
  }

  lemma MoreListed(anfds: seq<Anfd>, changes: seq<nat>, more: seq<Anfd>)
    requires Listed(anfds, changes) && forall i :: 0 <= i < |more| ==> more[i].reify == {}
    ensures Listed(anfds + more, changes)
  {
  }

  lemma MarkListed(anfds: seq<Anfd>, changes: seq<nat>, fd: nat, a: Anfd)
    requires Listed(anfds, changes) && fd < |anfds| && a.reify != {}
    ensures Listed(anfds[fd := a], if anfds[fd].reify == {} then changes + [fd] else changes)
  {
    var more := changes + [fd];
    if anfds[fd].reify == {} {
      assert more[|changes|] == fd && fd !in changes;
      forall d | 0 <= d < |anfds| && anfds[fd := a][d].reify != {} ensures d in more {
        if d != fd { assert d in changes; }
      }
    }
  }

  // ---------- the loop ----------

  class IoLoop {
    var anfds: seq<Anfd>
    var fdchanges: seq<nat>
    const backend: PollTable
    const pend: PendingStacks
    ghost const ws: set<IoWatcher>            // every watcher of this loop
    ghost var lists: seq<seq<IoWatcher>>      // per descriptor its watchers

    /** The lists hold exactly the active watchers, each on the list of its descriptor. */
    ghost predicate ListsOk()
      reads `anfds, `lists, ws`next, ws`active
    {
      && |lists| == |anfds|
      && (forall fd :: 0 <= fd < |lists| ==> forall u :: u in lists[fd] ==> u in ws && u.fd == fd && u.active)
      && (forall u :: u in ws && u.active ==> u.fd < |lists| && u in lists[u.fd])
      && (forall fd :: 0 <= fd < |lists| ==> NoDup(lists[fd]) && Linked(anfds[fd].head, lists[fd]))
    }

    /** Started watchers have lost EV__IOFDSET and the masks known to the backend are plain. */
    ghost predicate MasksOk()
      reads `anfds, ws`events, ws`active
    {
      && (forall u :: u in ws && u.active ==> u.events <= MASK)
      && (forall fd :: 0 <= fd < |anfds| ==> anfds[fd].events <= MASK)
    }

    /** fdchanges lists exactly the descriptors marked for reification, once each. */
    ghost predicate ChangesOk()
      reads `anfds, `fdchanges
    {
      Listed(anfds, fdchanges)
    }

    /** A descriptor that is not marked has the mask its watchers want. */
    ghost predicate CleanOk()
      reads `anfds, `lists, ws`events
      requires |lists| == |anfds| && forall fd :: 0 <= fd < |lists| ==> forall u :: u in lists[fd] ==> u in ws
    {
      forall fd :: 0 <= fd < |anfds| && anfds[fd].reify == {} ==> anfds[fd].events == Wanted(lists[fd])
    }

    /** The backend asks the kernel for the masks in `anfds`. */
    ghost predicate BackendOk()
      reads `anfds, backend
    {
      backend.Ok() && Asked(backend.interest, anfds)
    }

    ghost predicate Ok()
      reads `anfds, `lists, `fdchanges, backend, ws`next, ws`active, ws`events
    {
      ListsOk() && MasksOk() && ChangesOk() && CleanOk() && BackendOk()
    }

    constructor (pend: PendingStacks, ghost universe: set<IoWatcher>)
      requires forall u :: u in universe ==> !u.active
      ensures Ok() && ws == universe && this.pend == pend && fresh(backend) && lists == []
    {
      this.pend := pend;
      anfds, fdchanges, lists, ws := [], [], [], universe;
      backend := new PollTable();
    }

    // ---------- growing the table of descriptors ----------

    lemma SameLength()
      requires ListsOk()
      ensures |lists| == |anfds|
    {
    }

    /** New descriptors have no watchers and are not marked. */
    twostate predicate Grown()
      reads `anfds, `lists
    {
      && |old(anfds)| <= |anfds| == |lists| && |old(lists)| == |old(anfds)|
      && (forall fd :: 0 <= fd < |old(anfds)| ==> anfds[fd] == old(anfds)[fd] && lists[fd] == old(lists)[fd])
      && (forall fd :: |old(anfds)| <= fd < |anfds| ==> anfds[fd] == Anfd(null, {}, {}) && lists[fd] == [])
    }

    twostate lemma GrownLists()
      requires old(ListsOk()) && Grown()
      requires forall u :: u in ws ==> u.active == old(u.active) && u.next == old(u.next)
      ensures ListsOk()
    {
      forall fd | 0 <= fd < |lists| ensures NoDup(lists[fd]) && Linked(anfds[fd].head, lists[fd]) {
        if fd < |old(anfds)| { assert old(NoDup(lists[fd]) && Linked(anfds[fd].head, lists[fd])); }
      }
    }

    twostate lemma GrownClean()
      requires old(ListsOk() && CleanOk()) && ListsOk() && Grown()
      requires forall u :: u in ws ==> u.events == old(u.events)
      ensures CleanOk()
    {
      hide Linked, NoDup;
      forall d | 0 <= d < |anfds| && anfds[d].reify == {} ensures anfds[d].events == Wanted(lists[d]) {
        if d < |old(anfds)| {
          assert old(anfds[d].events == Wanted(lists[d]));
          SameWanted(lists[d]);
        }
      }
    }

    /** array_needsize for anfds; `room` is how far the allocator happens to round up. */
    method NeedSize(cnt: nat, room: nat)
      requires Ok()
      modifies `anfds, `lists
      ensures Ok() && cnt <= |anfds| && old(|anfds|) <= |anfds|
      ensures anfds[..old(|anfds|)] == old(anfds) && lists[..old(|anfds|)] == old(lists)
      ensures forall fd :: old(|anfds|) <= fd < |anfds| ==> lists[fd] == [] && anfds[fd].reify == {}
    {
      if cnt > |anfds| {
        hide Listed, Asked, ListsOk, CleanOk;
        SameLength();
        var more := cnt - |anfds| + room;
        MoreListed(anfds, fdchanges, seq(more, _ => Anfd(null, {}, {})));
        MoreAsked(backend.interest, anfds, seq(more, _ => Anfd(null, {}, {})));
        anfds := anfds + seq(more, _ => Anfd(null, {}, {}));
        lists := lists + seq(more, _ => []);
        GrownLists();
        GrownClean();
      }
    }

    /** fd_change */
    method FdChange(fd: nat, flags: Bits)
      requires fd < |anfds|
      modifies `anfds, `fdchanges
      ensures anfds == old(anfds)[fd := old(anfds)[fd].(reify := old(anfds)[fd].reify + flags)]
      ensures fdchanges == if old(anfds)[fd].reify == {} then old(fdchanges) + [fd] else old(fdchanges)
    {
      var reify := anfds[fd].reify;
      anfds := anfds[fd := anfds[fd].(reify := reify + flags)];
      if reify == {} {
        fdchanges := fdchanges + [fd];
      }
    }

    // ---------- ev_io_start ----------

    /** What ev_io_start does, once the table is large enough. */
    twostate predicate Started(w: IoWatcher)
      reads `anfds, `lists, `fdchanges, ws`next, ws`active, ws`events, w`next, w`active, w`events
      requires w.fd < |old(anfds)| && w.fd < |old(lists)|
    {
      var fd := w.fd;
      && (forall u :: u in ws && u != w ==> u.active == old(u.active) && u.next == old(u.next) && u.events == old(u.events))
      && w.active && w.next == old(anfds[fd].head) && w.events == old(w.events) - {EV__IOFDSET}
      && lists == old(lists)[fd := [w] + old(lists[fd])]
      && |anfds| == |old(anfds)| && anfds[fd].reify != {}
      && anfds == old(anfds)[fd := Anfd(w, old(anfds[fd].events), anfds[fd].reify)]
      && fdchanges == if old(anfds)[fd].reify == {} then old(fdchanges) + [fd] else old(fdchanges)
    }

    twostate lemma StartedLists(w: IoWatcher)
      requires old(ListsOk()) && w in ws && !old(w.active) && w.fd < |old(anfds)| && Started(w)
      ensures ListsOk()
    {
      var fd := w.fd;
      forall d | 0 <= d < |lists| ensures NoDup(lists[d]) && Linked(anfds[d].head, lists[d]) {
        assert old(NoDup(lists[d]) && Linked(anfds[d].head, lists[d]));
      }
    }

    twostate lemma StartedMasks(w: IoWatcher)
      requires old(MasksOk()) && w in ws && |old(anfds)| == |old(lists)|
      requires old(w.events) <= MASK + {EV__IOFDSET} && w.fd < |old(anfds)| && Started(w)
      ensures MasksOk()
    {
    }

    twostate lemma StartedChanges(w: IoWatcher)
      requires old(ChangesOk()) && w.fd < |old(anfds)| && |old(anfds)| == |old(lists)| && Started(w)
      ensures ChangesOk()
    {
      hide Listed;
      MarkListed(old(anfds), old(fdchanges), w.fd, anfds[w.fd]);
    }

    twostate lemma StartedClean(w: IoWatcher)
      requires old(ListsOk() && CleanOk()) && ListsOk() && !old(w.active) && w in ws && w.fd < |old(anfds)| && Started(w)
      ensures CleanOk()
    {
      forall d | 0 <= d < |anfds| && anfds[d].reify == {} ensures anfds[d].events == Wanted(lists[d]) {
        assert d != w.fd && lists[d] == old(lists[d]) && w !in lists[d];
        SameWanted(lists[d]);
      }
    }

    twostate lemma StartedBackend(w: IoWatcher)
      requires old(BackendOk()) && w.fd < |old(anfds)| && |old(anfds)| == |old(lists)| && Started(w) && unchanged(backend)
      ensures BackendOk()
    {
    }

    /** The writes of ev_io_start. */
    method Attach(w: IoWatcher)
      requires ListsOk() && w in ws && !w.active && w.fd < |anfds|
      modifies `anfds, `lists, `fdchanges, w`next, w`active, w`events
      ensures Started(w)
    {
      var fd := w.fd;
      w.active := true;
      var head := WlistAdd(anfds[fd].head, w, lists[fd]);
      anfds := anfds[fd := anfds[fd].(head := head)];
      lists := lists[fd := [w] + lists[fd]];
      FdChange(fd, w.events * {EV__IOFDSET} + {EV_ANFD_REIFY});
      w.events := w.events - {EV__IOFDSET};
    }

    method Start(w: IoWatcher)
      requires Ok() && w in ws && !w.active && w.fd < |anfds| && w.events <= MASK + {EV__IOFDSET}
      modifies `anfds, `lists, `fdchanges, w`next, w`active, w`events
      ensures Ok() && Started(w)
    {
      Attach(w);
      StartedLists(w);
      StartedMasks(w);
      StartedChanges(w);
      StartedClean(w);
      StartedBackend(w);
    }

    /** ev_io_start */
    method IoStart(w: IoWatcher, room: nat)
      requires Ok() && w in ws && w.events <= MASK + {EV__IOFDSET}
      modifies `anfds, `lists, `fdchanges, w`next, w`active, w`events
      ensures Ok() && w.active && (forall u :: u in ws && u != w ==> u.active == old(u.active))
      ensures forall u :: u in ws && u != w ==> u.events == old(u.events)
      ensures w.events == if old(w.active) then old(w.events) else old(w.events) - {EV__IOFDSET}
      ensures !old(w.active) ==> w.fd < |anfds| && anfds[w.fd].reify != {}
    {
      hide ListsOk, MasksOk, ChangesOk, CleanOk, BackendOk;
      if w.active { return; }
      NeedSize(w.fd + 1, room);
      Start(w);
    }

    // ---------- ev_io_stop ----------

    /** What ev_io_stop does to an active watcher. */
    twostate predicate Stopped(w: IoWatcher)
      reads `anfds, `lists, `fdchanges, ws`next, ws`active, ws`events, w`active
      requires w.fd < |old(anfds)| && w.fd < |old(lists)|
    {
      var fd := w.fd;
      && (forall u :: u in ws && u != w ==> u.active == old(u.active))
      && (forall u :: u in ws ==> u.events == old(u.events))
      && (forall u :: u in ws && u !in old(lists[fd]) ==> u.next == old(u.next))
      && !w.active && lists == old(lists)[fd := Without(old(lists[fd]), w)]
      && |anfds| == |old(anfds)| && anfds[fd].reify != {}
      && anfds == old(anfds)[fd := Anfd(anfds[fd].head, old(anfds[fd].events), anfds[fd].reify)]
      && fdchanges == if old(anfds)[fd].reify == {} then old(fdchanges) + [fd] else old(fdchanges)
    }

    twostate lemma StoppedLists(w: IoWatcher)
      requires old(ListsOk()) && w in ws && w.fd < |old(anfds)| && Stopped(w)
      requires NoDup(lists[w.fd]) && Linked(anfds[w.fd].head, lists[w.fd])
      ensures ListsOk()
    {
      forall d | 0 <= d < |lists| ensures NoDup(lists[d]) && Linked(anfds[d].head, lists[d]) {
        if d != w.fd { assert old(NoDup(lists[d]) && Linked(anfds[d].head, lists[d])); }
      }
    }

    twostate lemma StoppedMasks(w: IoWatcher)
      requires old(MasksOk()) && |old(anfds)| == |old(lists)| && w.fd < |old(anfds)| && Stopped(w)
      ensures MasksOk()
    {
    }

    twostate lemma StoppedChanges(w: IoWatcher)
      requires old(ChangesOk()) && w.fd < |old(anfds)| && |old(anfds)| == |old(lists)| && Stopped(w)
      ensures ChangesOk()
    {
      hide Listed;
      MarkListed(old(anfds), old(fdchanges), w.fd, anfds[w.fd]);
    }

    twostate lemma StoppedClean(w: IoWatcher)
      requires old(ListsOk() && CleanOk()) && ListsOk() && w.fd < |old(anfds)| && Stopped(w)
      ensures CleanOk()
    {
      forall d | 0 <= d < |anfds| && anfds[d].reify == {} ensures anfds[d].events == Wanted(lists[d]) {
        SameWanted(lists[d]);
      }
    }

    twostate lemma StoppedBackend(w: IoWatcher)
      requires old(BackendOk()) && w.fd < |old(anfds)| && |old(anfds)| == |old(lists)| && Stopped(w) && unchanged(backend)
      ensures BackendOk()
    {
    }

    lemma ListOf(w: IoWatcher)
      requires ListsOk() && w in ws && w.active
      ensures w.fd < |lists| == |anfds| && NoDup(lists[w.fd]) && Linked(anfds[w.fd].head, lists[w.fd])
      ensures forall u :: u in lists[w.fd] ==> u in ws
    {
    }

    /** wlist_del on the list of the watcher's descriptor. */
    method Unlist(w: IoWatcher)
      requires ListsOk() && w in ws && w.active
      modifies `anfds, `lists, ws`next
      ensures w.fd < |old(lists)| == |old(anfds)| && lists == old(lists)[w.fd := Without(old(lists[w.fd]), w)]
      ensures |anfds| == |old(anfds)| && anfds == old(anfds)[w.fd := old(anfds[w.fd]).(head := anfds[w.fd].head)]
      ensures NoDup(lists[w.fd]) && Linked(anfds[w.fd].head, lists[w.fd])
      ensures forall u :: u in ws && u !in old(lists[w.fd]) ==> u.next == old(u.next)
    {
      ListOf(w);
      var fd := w.fd;
      WithoutNoDup(lists[fd], w);
      var head := WlistDel(anfds[fd].head, w, lists[fd]);
      anfds := anfds[fd := anfds[fd].(head := head)];
      lists := lists[fd := Without(lists[fd], w)];
    }

    /** The writes of ev_io_stop. */
    method Detach(w: IoWatcher)
      requires ListsOk() && w in ws && w.active
      modifies `anfds, `lists, `fdchanges, ws`next, w`active
      ensures w.fd < |old(lists)| == |old(anfds)| && Stopped(w)
      ensures NoDup(lists[w.fd]) && Linked(anfds[w.fd].head, lists[w.fd])
    {
      hide ListsOk, Linked, NoDup, Without;
      Unlist(w);
      w.active := false;
      FdChange(w.fd, {EV_ANFD_REIFY});
    }

    /** The part of ev_io_stop for an active watcher. */
    method Stop(w: IoWatcher)
      requires Ok() && w in ws && w.active
      modifies `anfds, `lists, `fdchanges, ws`next, w`active
      ensures Ok() && w.fd < |old(lists)| == |old(anfds)| && Stopped(w)
    {
      Detach(w);
      StoppedLists(w);
      StoppedMasks(w);
      StoppedChanges(w);
      StoppedClean(w);
      StoppedBackend(w);
    }

    /** ev_io_stop: what was pending for the watcher is dropped, even if it is not active. */
    method IoStop(w: IoWatcher)
      requires Ok() && w in ws && pend.Ok() && w.base in pend.ws
      modifies `anfds, `lists, `fdchanges, ws`next, w`active, pend`stacks, w.base`pending
      ensures Ok() && !w.active && (forall u :: u in ws && u != w ==> u.active == old(u.active))
      ensures old(w.active) ==> w.fd < |anfds| && anfds[w.fd].reify != {}
      ensures old(w.active) ==> w.fd < |old(lists)| && lists == old(lists)[w.fd := Without(old(lists[w.fd]), w)]
      ensures !old(w.active) ==> anfds == old(anfds) && lists == old(lists) && fdchanges == old(fdchanges)
      ensures pend.Ok() && w.base.pending == 0
      ensures 0 <= Pri(w.base) < NUMPRI ==> pend.Model() == Apply(old(pend.Model()), Clear(w.base, Pri(w.base)))
    {
      hide ListsOk, MasksOk, ChangesOk, CleanOk, BackendOk, Without, Apply, SlotsOk, LiveAll;
      pend.ClearPending(w.base);
      if !w.active { return; }
      Stop(w);
    }

    // ---------- fd_reify ----------

    /** The descriptors from index `i` of fdchanges on are exactly those still marked. */
    ghost predicate MarkedFrom(i: nat)
      reads `anfds, `fdchanges
    {
      && i <= |fdchanges|
      && (forall j, k :: 0 <= j < k < |fdchanges| ==> fdchanges[j] != fdchanges[k])
      && (forall j :: i <= j < |fdchanges| ==> fdchanges[j] < |anfds|)
      && (forall fd :: 0 <= fd < |anfds| ==> (anfds[fd].reify != {} <==> fd in fdchanges[i..]))
    }

    lemma ListHere(fd: nat)
      requires ListsOk() && MasksOk() && fd < |anfds|
      ensures |lists| == |anfds| && Linked(anfds[fd].head, lists[fd]) && NoDup(lists[fd])
    {
    }

    /** The body of the loop of fd_reify. */
    method ReifyOne(fd: nat, room: nat)
      requires ListsOk() && MasksOk() && BackendOk() && fd < |anfds|
      modifies `anfds, backend
      ensures anfds == old(anfds)[fd := Anfd(old(anfds)[fd].head, Wanted(lists[fd]), {})] && BackendOk()
    {
      ListHere(fd);
      hide ListsOk, MasksOk, Linked, NoDup, Wanted, Asked;
      AskedOf(backend.interest, anfds, fd);
      AskedStep(backend.interest, anfds, fd, Anfd(anfds[fd].head, Wanted(lists[fd]), {}));
      var anfd := anfds[fd];
      var events := CollectEvents(anfd.head, lists[fd]);
      var oReify := if anfd.events != events then {EV__IOFDSET} else anfd.reify;
      anfds := anfds[fd := Anfd(anfd.head, events, {})];
      if EV__IOFDSET in oReify {
        backend.Modify(fd, anfd.events, events, room);
      }
    }

    twostate lemma ReifiedOk(new fd: nat, new i: nat)
      requires old(ListsOk() && MasksOk() && CleanOk() && MarkedFrom(i))
      requires i < |fdchanges| && fdchanges == old(fdchanges) && fdchanges[i] == fd && fd < |old(anfds)|
      requires lists == old(lists) && anfds == old(anfds)[fd := Anfd(old(anfds)[fd].head, Wanted(lists[fd]), {})]
      requires forall u :: u in ws ==> u.active == old(u.active) && u.next == old(u.next) && u.events == old(u.events)
      ensures ListsOk() && MasksOk() && CleanOk() && MarkedFrom(i + 1)
    {
      forall d | 0 <= d < |lists| ensures NoDup(lists[d]) && Linked(anfds[d].head, lists[d]) {
        assert old(NoDup(lists[d]) && Linked(anfds[d].head, lists[d]));
      }
      WantedMask(lists[fd]);
      assert forall d :: d in fdchanges[i..] <==> d == fd || d in fdchanges[i + 1..];
      forall d | 0 <= d < |anfds| && anfds[d].reify == {} ensures anfds[d].events == Wanted(lists[d]) {
        if d != fd { assert old(anfds[d].events == Wanted(lists[d])); }
      }
    }

    /** fd_reify */
    method FdReify(room: nat)
      requires Ok()
      modifies `anfds, `fdchanges, backend
      ensures Ok() && fdchanges == [] && lists == old(lists)
    {
      var i := 0;
      while i < |fdchanges|
        invariant ListsOk() && MasksOk() && CleanOk() && MarkedFrom(i) && BackendOk()
        invariant fdchanges == old(fdchanges)
      {
        label before:
        ReifyOne(fdchanges[i], room);
        ReifiedOk@before(fdchanges[i], i);
        i := i + 1;
      }
      fdchanges := [];
    }

    // ---------- fd_event ----------

    /** fd_event: what is fed for a report of the backend.  A marked descriptor gets nothing. */
    method FdEvent(fd: nat, revents: Bits) returns (fed: seq<(IoWatcher, Bits)>)
      requires Ok() && fd < |anfds|
      ensures fed == if anfds[fd].reify == {} then Hits(lists[fd], revents) else []
    {
      fed := [];
      if anfds[fd].reify != {} { return; }
      ghost var l, i := lists[fd], 0;
      var w := anfds[fd].head;
      while w != null
        invariant 0 <= i <= |l| && w == (if i < |l| then l[i] else null) && fed == Hits(l[..i], revents)
        decreases |l| - i
      {
        var ev := w.events * revents;
        if ev != {} { fed := fed + [(w, ev)]; }
        assert l[..i + 1][..i] == l[..i];
        w := w.next;
        i := i + 1;
      }
      assert l[..i] == l;
    }

    /** A report reaches exactly the active watchers of the descriptor that want part of it; and
        as the backend only reports what it was asked for, it reaches somebody. */
    lemma ReportsReachTheirWatchers(fd: nat, revents: Bits, b: nat)
      requires Ok() && fd < |anfds| && anfds[fd].reify == {}
      ensures forall u :: u in ws && u.active && u.fd == fd && u.events * revents != {} ==>
        (u, u.events * revents) in Hits(lists[fd], revents)
      ensures forall h :: h in Hits(lists[fd], revents) ==>
        h.0 in ws && h.0.active && h.0.fd == fd && h.1 == h.0.events * revents && h.1 != {}
      ensures b in anfds[fd].events && b in revents ==> exists h :: h in Hits(lists[fd], revents) && b in h.1
    {
      HitsAre(lists[fd], revents);
      if b in anfds[fd].events && b in revents {
        WantedIs(lists[fd], b);
        var i :| 0 <= i < |lists[fd]| && b in lists[fd][i].events;
        assert b in lists[fd][i].events * revents;
        assert (lists[fd][i], lists[fd][i].events * revents) in Hits(lists[fd], revents);
      }
    }

    /** Once no descriptor is marked, the kernel is asked for exactly what the watchers want: one
        entry for each descriptor that a watcher wants anything of, carrying the union of the masks. */
    lemma Reconciled()
      requires Ok() && fdchanges == []
      ensures forall i :: 0 <= i < |backend.polls| ==>
        && 0 <= backend.polls[i].fd < |lists|
        && Wanted(lists[backend.polls[i].fd]) != {}
        && (POLLIN in backend.polls[i].events <==> EV_READ in Wanted(lists[backend.polls[i].fd]))
        && (POLLOUT in backend.polls[i].events <==> EV_WRITE in Wanted(lists[backend.polls[i].fd]))
        && (POLLPRI in backend.polls[i].events <==> EV_EXCEPT in Wanted(lists[backend.polls[i].fd]))
      ensures forall i, j :: 0 <= i < j < |backend.polls| ==> backend.polls[i].fd != backend.polls[j].fd
      ensures forall fd :: 0 <= fd < |lists| && Wanted(lists[fd]) != {} ==>
        && fd < |backend.pollidxs| && 0 <= backend.pollidxs[fd] < |backend.polls|
        && backend.polls[backend.pollidxs[fd]].fd == fd
      ensures forall fd :: |lists| <= fd < |backend.pollidxs| || (0 <= fd < |lists| && fd < |backend.pollidxs| && Wanted(lists[fd]) == {}) ==>
        backend.pollidxs[fd] == -1
    {
    }

    /** What becomes of the report for entry `i` of the table: exactly the active watchers of its descriptor that asked for
        some of it are fed, with what they asked for; errors and hang-ups count as readable and writable.  Somebody is
        fed, unless it is just an error and all watchers are for exceptional conditions only. */
    lemma ReadinessReachesWatchers(i: int, revents: Bits, u: IoWatcher)
      requires Ok() && fdchanges == [] && 0 <= i < |backend.polls| && u in ws
      requires revents != {} && POLLNVAL !in revents && revents <= backend.polls[i].events + {POLLERR, POLLHUP}
      ensures 0 <= backend.polls[i].fd < |lists|
      ensures var fed := Hits(lists[backend.polls[i].fd], Translated(revents));
        && (fed == [] <==> revents <= {POLLERR, POLLHUP} && Wanted(lists[backend.polls[i].fd]) == {EV_EXCEPT})
        && forall e :: (u, e) in fed ==>
          && u.active && u.fd == backend.polls[i].fd && e != {} && e <= {EV_READ, EV_WRITE, EV_EXCEPT}
          && (EV_READ in e <==> EV_READ in u.events && revents * {POLLIN, POLLERR, POLLHUP} != {})
          && (EV_WRITE in e <==> EV_WRITE in u.events && revents * {POLLOUT, POLLERR, POLLHUP} != {})
          && (EV_EXCEPT in e <==> EV_EXCEPT in u.events && POLLPRI in revents)
      ensures u.active && u.fd == backend.polls[i].fd && u.events * Translated(revents) != {} ==>
        exists e :: (u, e) in Hits(lists[backend.polls[i].fd], Translated(revents))
    {
      var fd, r := backend.polls[i].fd, Translated(revents);
      TranslatedMeans(revents);
      EntryReconciled(i);
      Reconciled();
      HitsAre(lists[fd], r);
      if u.active && u.fd == fd && u.events * r != {} { assert (u, u.events * r) in Hits(lists[fd], r); }
      NobodyFedIff(i, revents);
    }

    lemma EntryReconciled(i: int)
      requires Ok() && fdchanges == [] && 0 <= i < |backend.polls|
      ensures 0 <= backend.polls[i].fd < |lists| == |anfds| && anfds[backend.polls[i].fd].reify == {}
      ensures forall w :: w in lists[backend.polls[i].fd] ==> w in ws && w.active && w.fd == backend.polls[i].fd && w.events <= MASK
      ensures anfds[backend.polls[i].fd].events == Wanted(lists[backend.polls[i].fd]) <= MASK
    {
    }

    /** Somebody is fed, unless it is just an error and all watchers are for exceptional conditions only. */
    lemma NobodyFedIff(i: int, revents: Bits)
      requires Ok() && fdchanges == [] && 0 <= i < |backend.polls|
      requires revents != {} && POLLNVAL !in revents && revents <= backend.polls[i].events + {POLLERR, POLLHUP}
      ensures 0 <= backend.polls[i].fd < |lists|
      ensures Hits(lists[backend.polls[i].fd], Translated(revents)) == [] <==>
        revents <= {POLLERR, POLLHUP} && Wanted(lists[backend.polls[i].fd]) == {EV_EXCEPT}
    {
      EntryReconciled(i);
      Reconciled();
      HitsNoneIff(lists[backend.polls[i].fd], Translated(revents));
      TranslatedMeans(revents);
      MeetIff(Wanted(lists[backend.polls[i].fd]), backend.polls[i].events, revents);
    }

    /** An active watcher's mask is part of what is wanted of its descriptor, and nothing else is. */
    lemma WantedByWatchers(fd: nat, b: nat)
      requires Ok() && fd < |lists|
      ensures b in Wanted(lists[fd]) <==> exists u :: u in ws && u.active && u.fd == fd && b in u.events
    {
      WantedIs(lists[fd], b);
      if u :| u in ws && u.active && u.fd == fd && b in u.events {
        var i :| 0 <= i < |lists[fd]| && lists[fd][i] == u;
      }
    }
  }

  /** The watchers of `l` that want part of `revents`, with the part they want. */
  ghost function Hits(l: seq<IoWatcher>, revents: Bits): seq<(IoWatcher, Bits)>
    reads l`events
  {
    if l == [] then []
    else
      var w, front := l[|l| - 1], Hits(l[..|l| - 1], revents);
      if w.events * revents != {} then front + [(w, w.events * revents)] else front
  }

  lemma {:induction false} HitsNoneIff(l: seq<IoWatcher>, revents: Bits)
    ensures Hits(l, revents) == [] <==> Wanted(l) * revents == {}
    decreases |l|
  {
    if l != [] {
      var w, front := l[|l| - 1], l[..|l| - 1];
      HitsNoneIff(front, revents);
      assert Wanted(l) * revents == Wanted(front) * revents + w.events * revents;
    }
  }

  /** When a mask and the translation of a report meet; `events` are what is asked of poll for the mask. */
  lemma MeetIff(wanted: Bits, events: Bits, revents: Bits)
    requires wanted != {} && wanted <= MASK && events <= {POLLIN, POLLOUT, POLLPRI}
    requires (POLLIN in events <==> EV_READ in wanted) && (POLLOUT in events <==> EV_WRITE in wanted)
    requires POLLPRI in events <==> EV_EXCEPT in wanted
    requires revents != {} && revents <= events + {POLLERR, POLLHUP}
    ensures wanted * Translated(revents) == {} <==> revents <= {POLLERR, POLLHUP} && wanted == {EV_EXCEPT}
  {
    var t := Translated(revents);
    if revents <= {POLLERR, POLLHUP} && wanted == {EV_EXCEPT} {
      assert EV_EXCEPT !in t;
    } else {
      var b :| b in revents;
      var e := if POLLPRI in revents then EV_EXCEPT else if EV_READ in wanted && (POLLIN in revents || b == POLLERR || b == POLLHUP) then EV_READ else EV_WRITE;
      assert e in wanted * t;
    }
  }

  lemma TranslatedMeans(revents: Bits)
    ensures Translated(revents) <= {EV_READ, EV_WRITE, EV_EXCEPT}
    ensures EV_READ in Translated(revents) <==> revents * {POLLIN, POLLERR, POLLHUP} != {}
    ensures EV_WRITE in Translated(revents) <==> revents * {POLLOUT, POLLERR, POLLHUP} != {}
    ensures EV_EXCEPT in Translated(revents) <==> POLLPRI in revents
  {
    TranslatedIs(revents,
                 if revents * {POLLIN, POLLERR, POLLHUP} != {} then {EV_READ} else {},
                 if revents * {POLLOUT, POLLERR, POLLHUP} != {} then {EV_WRITE} else {},
                 if POLLPRI in revents then {EV_EXCEPT} else {});
  }

  lemma {:induction false} HitsAre(l: seq<IoWatcher>, revents: Bits)
    ensures forall u :: u in l && u.events * revents != {} ==> (u, u.events * revents) in Hits(l, revents)
    ensures forall h :: h in Hits(l, revents) ==> h.0 in l && h.1 == h.0.events * revents && h.1 != {}
    decreases |l|
  {
    if l != [] {
      HitsAre(l[..|l| - 1], revents);
      assert l == l[..|l| - 1] + [l[|l| - 1]];
    }
  }

  lemma WithoutNoDup(l: seq<IoWatcher>, w: IoWatcher)
    requires NoDup(l)
    ensures NoDup(Without(l, w))
  {
    if i :| 0 <= i < |l| && l[i] == w {
      WithoutAt(l, i);
      var r := l[..i] + l[i + 1..];
      forall j, k | 0 <= j < k < |r| ensures r[j] != r[k] {
        assert r[j] == l[if j < i then j else j + 1] && r[k] == l[if k < i then k else k + 1];
      }
    } else {
      WithoutAbsent(l, w);
    }
  }

  lemma {:induction false} WantedMask(l: seq<IoWatcher>)
    requires forall u :: u in l ==> u.events <= MASK
    ensures Wanted(l) <= MASK
    decreases |l|
  {
    if l != [] { WantedMask(l[..|l| - 1]); }
  }

  twostate lemma {:induction false} SameWanted(l: seq<IoWatcher>)
    requires forall u :: u in l ==> u.events == old(u.events)
    ensures Wanted(l) == old(Wanted(l))
    decreases |l|
  {
    if l != [] { SameWanted(l[..|l| - 1]); }
  }
}

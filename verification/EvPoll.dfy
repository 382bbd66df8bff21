/** The poll backend: a dense array of pollfds and the index from descriptors into it. */
module EvPoll {
  /** An event mask, as the set of its bits. */
  type Bits = set<nat>

  const EV_READ: nat := 0
  const EV_WRITE: nat := 1
  const EV_EXCEPT: nat := 2

  const POLLIN: nat := 0
  const POLLPRI: nat := 1
  const POLLOUT: nat := 2
  const POLLERR: nat := 3
  const POLLHUP: nat := 4
  const POLLNVAL: nat := 5

  datatype PollFd = PollFd(fd: int, events: Bits)

  /** The events of poll(2) that stand for a mask of libev. */
  function PollEvents(nev: Bits): Bits
  {
    (if EV_READ in nev then {POLLIN} else {})
    + (if EV_WRITE in nev then {POLLOUT} else {})
    + (if EV_EXCEPT in nev then {POLLPRI} else {})
  }

  /** The mask a pollfd stands for. */
  function Interest(e: Bits): Bits
  {
    (if POLLIN in e then {EV_READ} else {})
    + (if POLLOUT in e then {EV_WRITE} else {})
    + (if POLLPRI in e then {EV_EXCEPT} else {})
  }

  lemma PollEventsFaithful(nev: Bits)
    requires nev <= {EV_READ, EV_WRITE, EV_EXCEPT}
    ensures Interest(PollEvents(nev)) == nev
  {
  }

  /** `idxs` is the inverse of the descriptors in `polls`, and -1 elsewhere. */
  ghost predicate Inverse(polls: seq<PollFd>, idxs: seq<int>)
  {
    && (forall i :: 0 <= i < |polls| ==> 0 <= polls[i].fd < |idxs| && idxs[polls[i].fd] == i)
    && (forall fd :: 0 <= fd < |idxs| ==> idxs[fd] == -1 || (0 <= idxs[fd] < |polls| && polls[idxs[fd]].fd == fd))
  }

  /** The table asks the kernel for exactly `m`: one entry for each descriptor of `m`, with its mask. */
  ghost predicate Tabulates(polls: seq<PollFd>, idxs: seq<int>, m: map<int, Bits>)
  {
    && Inverse(polls, idxs)
    && (forall i :: 0 <= i < |polls| ==> polls[i].fd in m && polls[i].events == PollEvents(m[polls[i].fd]))
    && (forall fd :: fd in m ==> 0 <= fd < |idxs| && idxs[fd] >= 0)
  }

  /** A table has room for -1 entries at the end. */
  lemma Extend(polls: seq<PollFd>, idxs: seq<int>, m: map<int, Bits>, more: seq<int>)
    requires Tabulates(polls, idxs, m) && forall i :: 0 <= i < |more| ==> more[i] == -1
    ensures Tabulates(polls, idxs + more, m)
  {
  }

  lemma Append(polls: seq<PollFd>, idxs: seq<int>, m: map<int, Bits>, fd: int, mask: Bits)
    requires Tabulates(polls, idxs, m) && 0 <= fd < |idxs| && idxs[fd] == -1
    ensures Tabulates(polls + [PollFd(fd, PollEvents(mask))], idxs[fd := |polls|], m[fd := mask])
  {
  }

  lemma Change(polls: seq<PollFd>, idxs: seq<int>, m: map<int, Bits>, fd: int, mask: Bits)
    requires Tabulates(polls, idxs, m) && 0 <= fd < |idxs| && idxs[fd] >= 0
    ensures Tabulates(polls[idxs[fd] := PollFd(fd, PollEvents(mask))], idxs, m[fd := mask])
  {
  }

  /** Removal: the last entry takes the place of the removed one. */
  function Removed(polls: seq<PollFd>, idx: int): seq<PollFd>
    requires 0 <= idx < |polls|
  {
    polls[idx := polls[|polls| - 1]][..|polls| - 1]
  }

  function Reindexed(polls: seq<PollFd>, idxs: seq<int>, fd: int): seq<int>
    requires 0 <= fd < |idxs| && 0 <= idxs[fd] < |polls| && 0 <= polls[|polls| - 1].fd < |idxs|
  {
    var gone := idxs[fd := -1];
    if idxs[fd] < |polls| - 1 then gone[polls[|polls| - 1].fd := idxs[fd]] else gone
  }

  lemma Remove(polls: seq<PollFd>, idxs: seq<int>, m: map<int, Bits>, fd: int)
    requires Tabulates(polls, idxs, m) && 0 <= fd < |idxs| && idxs[fd] >= 0
    ensures Tabulates(Removed(polls, idxs[fd]), Reindexed(polls, idxs, fd), m - {fd})
  {
    var last := polls[|polls| - 1].fd;
    var idxs' := Reindexed(polls, idxs, fd);
    forall d | d in m - {fd} ensures 0 <= d < |idxs'| && idxs'[d] >= 0 {
      assert d != last ==> idxs'[d] == idxs[d];
    }
  }

  lemma EntryOf(polls: seq<PollFd>, idxs: seq<int>, m: map<int, Bits>, fd: int)
    requires Tabulates(polls, idxs, m) && 0 <= fd < |idxs|
    ensures idxs[fd] == -1 || (0 <= idxs[fd] < |polls| && polls[idxs[fd]].fd == fd)
    ensures fd in m <==> idxs[fd] >= 0
    ensures polls != [] ==> 0 <= polls[|polls| - 1].fd < |idxs|
  {
  }

  lemma NoEvents()
    ensures PollEvents({}) == {}
  {
  }

  // ---------- what poll(2) reports ----------

  /** What poll_poll does about a pollfd: fd_kill or fd_event. */
  datatype Report = Kill(fd: int) | Event(fd: int, events: Bits)

  /** Errors and hang-ups count as readable and writable. */
  function Translated(revents: Bits): Bits
  {
    (if POLLOUT in revents || POLLERR in revents || POLLHUP in revents then {EV_WRITE} else {})
    + (if POLLIN in revents || POLLERR in revents || POLLHUP in revents then {EV_READ} else {})
    + (if POLLPRI in revents then {EV_EXCEPT} else {})
  }

  function ReportOf(fd: int, revents: Bits): Report
  {
    if POLLNVAL in revents then Kill(fd) else Event(fd, Translated(revents))
  }

  /** The reports of all pollfds, in their order; `revents` are their fields of that name. */
  function Reports(polls: seq<PollFd>, revents: seq<Bits>): seq<Report>
    requires |revents| == |polls|
  {
    if polls == [] then []
    else
      var last := |polls| - 1;
      Reports(polls[..last], revents[..last]) + if revents[last] == {} then [] else [ReportOf(polls[last].fd, revents[last])]
  }

  /** The number of pollfds with events, which poll(2) returns. */
  function Ready(revents: seq<Bits>): nat
  {
    if revents == [] then 0 else Ready(revents[..|revents| - 1]) + if revents[|revents| - 1] == {} then 0 else 1
  }

  lemma {:induction false} ReadyAll(revents: seq<Bits>, k: nat)
    requires k <= |revents|
    ensures Ready(revents[..k]) <= Ready(revents)
    ensures Ready(revents[..k]) == Ready(revents) ==> forall i :: k <= i < |revents| ==> revents[i] == {}
    decreases |revents|
  {
    if k < |revents| {
      var front := revents[..|revents| - 1];
      ReadyAll(front, k);
      assert front[..k] == revents[..k];
      forall i | k <= i < |revents| && Ready(revents[..k]) == Ready(revents) ensures revents[i] == {} {
        if i < |front| { assert front[i] == revents[i]; }
      }
    } else {
      assert revents[..k] == revents;
    }
  }

  lemma {:induction false} RestUnready(polls: seq<PollFd>, revents: seq<Bits>, k: nat)
    requires |revents| == |polls| && k <= |polls| && forall i :: k <= i < |polls| ==> revents[i] == {}
    ensures Reports(polls, revents) == Reports(polls[..k], revents[..k])
    decreases |polls|
  {
    if k < |polls| {
      var last := |polls| - 1;
      RestUnready(polls[..last], revents[..last], k);
      assert polls[..last][..k] == polls[..k] && revents[..last][..k] == revents[..k];
    } else {
      assert polls[..k] == polls && revents[..k] == revents;
    }
  }

  /** Pollfd `i` has events, and `r` is its report. */
  predicate IsReport(polls: seq<PollFd>, revents: seq<Bits>, i: int, r: Report)
    requires |revents| == |polls|
  {
    0 <= i < |polls| && revents[i] != {} && r == ReportOf(polls[i].fd, revents[i])
  }

  /** Every pollfd with events is reported. */
  lemma {:induction false} AllReported(polls: seq<PollFd>, revents: seq<Bits>, i: int)
    requires |revents| == |polls| && 0 <= i < |polls| && revents[i] != {}
    ensures ReportOf(polls[i].fd, revents[i]) in Reports(polls, revents)
    decreases |polls|
  {
    hide ReportOf;
    var last := |polls| - 1;
    if i < last { AllReported(polls[..last], revents[..last], i); }
  }

  /** Nothing else is reported. */
  lemma {:induction false} OnlyReported(polls: seq<PollFd>, revents: seq<Bits>, r: Report) returns (i: int)
    requires |revents| == |polls| && r in Reports(polls, revents)
    ensures IsReport(polls, revents, i, r)
    decreases |polls|
  {
    hide ReportOf;
    var last := |polls| - 1;
    if r in Reports(polls[..last], revents[..last]) {
      i := OnlyReported(polls[..last], revents[..last], r);
    } else {
      i := last;
    }
  }

  /** And nothing twice. */
  lemma {:induction false} ReportedOnce(polls: seq<PollFd>, revents: seq<Bits>)
    requires |revents| == |polls|
    ensures |Reports(polls, revents)| == Ready(revents)
    decreases |polls|
  {
    hide ReportOf;
    if polls != [] { ReportedOnce(polls[..|polls| - 1], revents[..|polls| - 1]); }
  }

  /** polls and pollidxs of a loop; `interest` is what the kernel is asked for. */
  class PollTable {
    var polls: seq<PollFd>
    var pollidxs: seq<int>
    ghost var interest: map<int, Bits>

    ghost predicate Ok()
      reads this
    {
      && Tabulates(polls, pollidxs, interest)
      && forall fd :: fd in interest ==> interest[fd] != {}
    }

    constructor ()
      ensures Ok() && interest == map[]
    {
      polls, pollidxs, interest := [], [], map[];
    }

    /** array_needsize with pollidx_init: `room` is how far the allocator happens to round up. */
    method NeedSize(cnt: nat, room: nat)
      requires Ok()
      modifies this`pollidxs
      ensures Ok() && cnt <= |pollidxs|
    {
      if cnt > |pollidxs| {
        var more := seq(cnt - |pollidxs| + room, _ => -1);
        Extend(polls, pollidxs, interest, more);
        pollidxs := pollidxs + more;
      }
    }

    /** poll_modify: the interest in `fd` changes from `oev` to `nev`. */
    method Modify(fd: nat, oev: Bits, nev: Bits, room: nat)
      requires Ok() && oev == (if fd in interest then interest[fd] else {})
      modifies this
      ensures Ok() && interest == if nev == {} then old(interest) - {fd} else old(interest)[fd := nev]
    {
      hide Tabulates, Inverse, PollEvents;
      if oev == nev { return; }
      NeedSize(fd + 1, room);
      ghost var m := interest;
      EntryOf(polls, pollidxs, m, fd);
      var idx := pollidxs[fd];
      if idx < 0 {
        NoEvents();
        Append(polls, pollidxs, m, fd, {});
        idx := |polls|;
        pollidxs := pollidxs[fd := idx];
        polls := polls + [PollFd(fd, {})];
        m := m[fd := {}];
        EntryOf(polls, pollidxs, m, fd);
      }
      if nev != {} {
        Change(polls, pollidxs, m, fd, nev);
        polls := polls[idx := PollFd(polls[idx].fd, PollEvents(nev))];
        interest := m[fd := nev];
        assert interest == old(interest)[fd := nev];
      } else {
        Remove(polls, pollidxs, interest, fd);
        var last := |polls| - 1;
        pollidxs := pollidxs[fd := -1];
        if idx < last {
          pollidxs := pollidxs[polls[last].fd := idx];
        }
        polls := polls[idx := polls[last]][..last];
        interest := interest - {fd};
      }
    }

    /** The part of poll_poll for a pollfd with events. */
    method ReportOne(fd: int, revents: Bits) returns (r: Report)
      ensures r == ReportOf(fd, revents)
    {
      if POLLNVAL in revents { return Kill(fd); }
      var read := if revents * {POLLIN, POLLERR, POLLHUP} != {} then {EV_READ} else {};
      var write := if revents * {POLLOUT, POLLERR, POLLHUP} != {} then {EV_WRITE} else {};
      var except := if POLLPRI in revents then {EV_EXCEPT} else {};
      TranslatedIs(revents, read, write, except);
      return Event(fd, write + read + except);
    }

    /** poll_poll, when poll(2) has set the `revents` of the table and returned how many are ready. */
    method PollPoll(revents: seq<Bits>, res0: nat) returns (reports: seq<Report>)
      requires |revents| == |polls| && res0 == Ready(revents)
      ensures reports == Reports(polls, revents)
    {
      hide ReportOf, Tabulates;
      var res, i := res0, 0;
      reports := [];
      while res != 0
        invariant 0 <= i <= |polls| && res == res0 - Ready(revents[..i]) && reports == Reports(polls[..i], revents[..i])
        decreases |polls| - i
      {
        assert revents[..|polls|] == revents;
        assert polls[..i + 1][..i] == polls[..i] && revents[..i + 1][..i] == revents[..i];
        if revents[i] != {} {
          res := res - 1;
          var r := ReportOne(polls[i].fd, revents[i]);
          reports := reports + [r];
        }
        i := i + 1;
        ReadyAll(revents, i);
      }
      ReadyAll(revents, i);
      RestUnready(polls, revents, i);
    }
  }

  lemma TranslatedIs(revents: Bits, read: Bits, write: Bits, except: Bits)
    requires read == (if revents * {POLLIN, POLLERR, POLLHUP} != {} then {EV_READ} else {})
    requires write == (if revents * {POLLOUT, POLLERR, POLLHUP} != {} then {EV_WRITE} else {})
    requires except == if POLLPRI in revents then {EV_EXCEPT} else {}
    ensures Translated(revents) == write + read + except
  {
    assert revents * {POLLIN, POLLERR, POLLHUP} != {} <==> POLLIN in revents || POLLERR in revents || POLLHUP in revents by {
      if POLLIN in revents { assert POLLIN in revents * {POLLIN, POLLERR, POLLHUP}; }
      if POLLERR in revents { assert POLLERR in revents * {POLLIN, POLLERR, POLLHUP}; }
      if POLLHUP in revents { assert POLLHUP in revents * {POLLIN, POLLERR, POLLHUP}; }
    }
    assert revents * {POLLOUT, POLLERR, POLLHUP} != {} <==> POLLOUT in revents || POLLERR in revents || POLLHUP in revents by {
      if POLLOUT in revents { assert POLLOUT in revents * {POLLOUT, POLLERR, POLLHUP}; }
      if POLLERR in revents { assert POLLERR in revents * {POLLOUT, POLLERR, POLLHUP}; }
      if POLLHUP in revents { assert POLLHUP in revents * {POLLOUT, POLLERR, POLLHUP}; }
    }
  }
}

/** Circular doubly linked lists whose nodes are embedded in the entries, and the message queue of a
  task that is built on them.
*/
module IntrusiveList {
  datatype Option<T> = None | Some(value: T)

  /** A list head, or the node embedded in an entry. */
  class ListHead<T> {
    const entry: Option<T>        // what list_entry() leads to; None in a list head
    var next: ListHead?<T>
    var prev: ListHead?<T>

    /** INIT_LIST_HEAD on a fresh node */
    constructor (entry: Option<T>)
      ensures this.entry == entry && Ring(this, [])
    {
      this.entry := entry;
      new;
      Init(this);
    }
  }

  /** The way round from a list head back to it. */
  function Circle<T>(head: ListHead<T>, l: seq<ListHead<T>>): seq<ListHead<T>> { [head] + l + [head] }

  ghost predicate NoDup<T>(s: seq<ListHead<T>>) { forall i, j :: 0 <= i < j < |s| ==> s[i] != s[j] }

  /** Neighbours in `c` point at each other. */
  ghost predicate Threaded<T>(c: seq<ListHead<T>>)
    reads c`next, c`prev
  {
    forall i :: 0 <= i < |c| - 1 ==> c[i].next == c[i + 1] && c[i + 1].prev == c[i]
  }

  /** `head` is the head of a list of the nodes `l`. */
  ghost predicate Ring<T>(head: ListHead<T>, l: seq<ListHead<T>>)
    reads {head}`next, {head}`prev, l`next, l`prev
  {
    NoDup([head] + l) && Threaded(Circle(head, l))
  }

  /** INIT_LIST_HEAD */
  method Init<T>(list: ListHead<T>)
    modifies list`next, list`prev
    ensures Ring(list, [])
  {
    list.next := list;
    list.prev := list;
  }

  /** list_empty */
  method ListEmpty<T>(head: ListHead<T>, ghost l: seq<ListHead<T>>) returns (empty: bool)
    requires Ring(head, l)
    ensures empty <==> l == []
  {
    empty := head.next == head;
    assert Circle(head, l)[0].next == Circle(head, l)[1];
    assert l != [] ==> ([head] + l)[1] == l[0];
  }

  /** __list_add: `node` goes between `prev` and `next`. */
  method Insert<T>(node: ListHead<T>, prev: ListHead<T>, next: ListHead<T>)
    requires node != prev && node != next
    modifies next`prev, node`next, node`prev, prev`next
    ensures next.prev == node && node.next == next && node.prev == prev && prev.next == node
  {
    next.prev := node;
    node.next := next;
    node.prev := prev;
    prev.next := node;
  }

  /** A node let in between the last node of a circle and the head. */
  twostate lemma Appended<T>(c: seq<ListHead<T>>, new node: ListHead<T>)
    requires |c| >= 2 && c[0] == c[|c| - 1] && NoDup(c[..|c| - 1]) && node !in c && old(Threaded(c))
    requires c[0].prev == node && node.next == c[0] && node.prev == c[|c| - 2] && c[|c| - 2].next == node
    requires forall u :: u in c && u != c[0] ==> u.prev == old(u.prev)
    requires forall u :: u in c && u != c[|c| - 2] ==> u.next == old(u.next)
    ensures Threaded(c[..|c| - 1] + [node, c[0]])
  {
    var d := c[..|c| - 1] + [node, c[0]];
    forall i | 0 <= i < |d| - 1 ensures d[i].next == d[i + 1] && d[i + 1].prev == d[i] {
      if i < |c| - 2 {
        assert old(c[i].next == c[i + 1] && c[i + 1].prev == c[i]);
        assert c[..|c| - 1][i] != c[..|c| - 1][|c| - 2] && c[..|c| - 1][0] != c[..|c| - 1][i + 1];
      }
    }
  }

  lemma Neighbours<T>(c: seq<ListHead<T>>, i: int)
    requires Threaded(c) && 0 <= i < |c| - 1
    ensures c[i].next == c[i + 1] && c[i + 1].prev == c[i]
  {
  }

  /** list_add_tail */
  method ListAddTail<T>(node: ListHead<T>, head: ListHead<T>, ghost l: seq<ListHead<T>>)
    requires Ring(head, l) && node != head && node !in l
    modifies head`prev, head`next, node`next, node`prev, l`next
    ensures Ring(head, l + [node])
  {
    ghost var c := Circle(head, l);
    Neighbours(c, |c| - 2);
    assert c[..|c| - 1] == [head] + l && [head] + (l + [node]) == ([head] + l) + [node];
    Insert(node, head.prev, head);
    Appended(c, node);
    assert Circle(head, l + [node]) == c[..|c| - 1] + [node, head];
  }

  // ---------- deletion ----------

  /** Node `k` of a circle taken out by joining its neighbours. */
  twostate lemma Removed<T>(c: seq<ListHead<T>>, new k: int)
    requires 0 < k < |c| - 1 && c[0] == c[|c| - 1] && NoDup(c[..|c| - 1]) && old(Threaded(c))
    requires c[k + 1].prev == c[k - 1] && c[k - 1].next == c[k + 1]
    requires forall u :: u in c && u != c[k + 1] && u != c[k] ==> u.prev == old(u.prev)
    requires forall u :: u in c && u != c[k - 1] && u != c[k] ==> u.next == old(u.next)
    ensures Threaded(c[..k] + c[k + 1..])
  {
    var d, e := c[..k] + c[k + 1..], c[..|c| - 1];
    forall i | 0 <= i < |d| - 1 ensures d[i].next == d[i + 1] && d[i + 1].prev == d[i] {
      if i != k - 1 {
        var j := if i < k then i else i + 1;
        assert old(c[j].next == c[j + 1] && c[j + 1].prev == c[j]);
        assert e[j] == c[j] && e[k] == c[k] && e[k - 1] == c[k - 1] && e[0] == c[0];
        assert j + 1 < |e| ==> e[j + 1] == c[j + 1];
        assert k + 1 < |e| ==> e[k + 1] == c[k + 1];
      }
    }
  }

  /** __list_del_entry, for the entry at index `i`. */
  method Unlink<T>(entry: ListHead<T>, ghost head: ListHead<T>, ghost l: seq<ListHead<T>>, ghost i: int)
    requires Ring(head, l) && 0 <= i < |l| && entry == l[i]
    modifies head`prev, head`next, l`next, l`prev
    ensures Ring(head, l[..i] + l[i + 1..]) && entry != head && entry !in l[..i] + l[i + 1..]
  {
    ghost var c := Circle(head, l);
    assert c[..|c| - 1] == [head] + l;
    Neighbours(c, i);
    Neighbours(c, i + 1);
    assert ([head] + l)[0] != ([head] + l)[i + 1];
    entry.next.prev := entry.prev;
    entry.prev.next := entry.next;
    Removed(c, i + 1);
    assert Circle(head, l[..i] + l[i + 1..]) == c[..i + 1] + c[i + 2..];
    DropNoDup(head, l, i);
  }

  lemma DropNoDup<T>(head: ListHead<T>, l: seq<ListHead<T>>, i: int)
    requires NoDup([head] + l) && 0 <= i < |l|
    ensures NoDup([head] + (l[..i] + l[i + 1..])) && l[i] !in l[..i] + l[i + 1..]
  {
    var a, r := [head] + l, l[..i] + l[i + 1..];
    var b := [head] + r;
    assert a[i + 1] == l[i];
    forall j | 0 <= j < |b| ensures b[j] == a[if j <= i then j else j + 1] {
      if 0 < j { assert b[j] == r[j - 1]; }
    }
    forall j | 0 <= j < |r| ensures r[j] != l[i] {
      assert b[j + 1] == r[j] && a[if j + 1 <= i then j + 1 else j + 2] != a[i + 1];
    }
  }

  /** list_del */
  method ListDel<T>(entry: ListHead<T>, ghost head: ListHead<T>, ghost l: seq<ListHead<T>>, ghost i: int)
    requires Ring(head, l) && 0 <= i < |l| && entry == l[i]
    modifies head`prev, head`next, l`next, l`prev
    ensures Ring(head, l[..i] + l[i + 1..]) && entry.next == null && entry.prev == null
  {
    Unlink(entry, head, l, i);
    label unlinked:
    entry.next := null;
    entry.prev := null;
    Unconcerned@unlinked(Circle(head, l[..i] + l[i + 1..]));
  }

  /** list_del_init */
  method ListDelInit<T>(entry: ListHead<T>, ghost head: ListHead<T>, ghost l: seq<ListHead<T>>, ghost i: int)
    requires Ring(head, l) && 0 <= i < |l| && entry == l[i]
    modifies head`prev, head`next, l`next, l`prev
    ensures Ring(head, l[..i] + l[i + 1..]) && Ring(entry, [])
  {
    Unlink(entry, head, l, i);
    label unlinked:
    Init(entry);
    Unconcerned@unlinked(Circle(head, l[..i] + l[i + 1..]));
  }

  twostate lemma Unconcerned<T>(c: seq<ListHead<T>>)
    requires old(Threaded(c)) && forall u :: u in c ==> u.next == old(u.next) && u.prev == old(u.prev)
    ensures Threaded(c)
  {
    forall i | 0 <= i < |c| - 1 ensures c[i].next == c[i + 1] && c[i + 1].prev == c[i] {
      assert old(c[i].next == c[i + 1] && c[i + 1].prev == c[i]);
    }
  }

  // ---------- cutting ----------

  /** The part of a circle up to node `k`, closed over the new head `list`, ... */
  twostate lemma CutFront<T>(c: seq<ListHead<T>>, new list: ListHead<T>, new k: int)
    requires 0 < k < |c| - 1 && old(Threaded(c))
    requires list.next == c[1] && c[1].prev == list && list.prev == c[k] && c[k].next == list
    requires forall i :: 1 < i <= k ==> c[i].prev == old(c[i].prev)
    requires forall i :: 1 <= i < k ==> c[i].next == old(c[i].next)
    ensures Threaded([list] + c[1..k + 1] + [list])
  {
    var d := [list] + c[1..k + 1] + [list];
    forall i | 0 <= i < |d| - 1 ensures d[i].next == d[i + 1] && d[i + 1].prev == d[i] {
      if i == 0 {
        assert d[0] == list && d[1] == c[1];
      } else if i < k {
        assert d[i] == c[i] && d[i + 1] == c[i + 1];
        assert old(c[i].next == c[i + 1] && c[i + 1].prev == c[i]);
      } else {
        assert d[i] == c[k] && d[i + 1] == list;
      }
    }
  }

  /** ... and the rest, closed over its own head. */
  twostate lemma CutRest<T>(c: seq<ListHead<T>>, new k: int)
    requires 0 < k < |c| - 1 && old(Threaded(c))
    requires c[0].next == c[k + 1] && c[k + 1].prev == c[0]
    requires forall i :: k + 1 < i < |c| ==> c[i].prev == old(c[i].prev)
    requires forall i :: k + 1 <= i < |c| - 1 ==> c[i].next == old(c[i].next)
    ensures Threaded([c[0]] + c[k + 1..])
  {
    var d := [c[0]] + c[k + 1..];
    forall i | 0 <= i < |d| - 1 ensures d[i].next == d[i + 1] && d[i + 1].prev == d[i] {
      if i == 0 {
        assert d[0] == c[0] && d[1] == c[k + 1];
      } else {
        assert d[i] == c[k + i] && d[i + 1] == c[k + i + 1];
        assert old(c[k + i].next == c[k + i + 1] && c[k + i + 1].prev == c[k + i]);
      }
    }
  }

  lemma CircleDistinct<T>(head: ListHead<T>, l: seq<ListHead<T>>)
    requires NoDup([head] + l)
    ensures forall i, j :: 0 <= i < j <= |l| ==> Circle(head, l)[i] != Circle(head, l)[j]
  {
    var c := Circle(head, l);
    forall i, j | 0 <= i < j <= |l| ensures c[i] != c[j] {
      assert c[i] == ([head] + l)[i] && c[j] == ([head] + l)[j];
    }
  }

  /** The nodes whose links a cut behind node `k` leaves alone. */
  lemma CutDistinct<T>(head: ListHead<T>, l: seq<ListHead<T>>, list: ListHead<T>, k: int)
    requires NoDup([head] + l) && 0 < k <= |l| && list != head && list !in l
    ensures var c := Circle(head, l);
      && (forall i :: 0 <= i < |c| ==> c[i] != list)
      && (forall i :: 1 < i <= k ==> c[i] != c[1] && c[i] != c[k + 1])
      && (forall i :: 1 <= i < k ==> c[i] != c[k] && c[i] != c[0])
      && (forall i :: k + 1 < i < |c| ==> c[i] != c[1] && c[i] != c[k + 1])
      && (forall i :: k + 1 <= i < |c| - 1 ==> c[i] != c[k] && c[i] != c[0])
      && c[k] != c[0] && c[1] != c[0] && c[1] != c[k + 1]
  {
    var c := Circle(head, l);
    CircleDistinct(head, l);
    assert c[0] == c[|c| - 1] == head;
    forall i | 0 <= i < |c| ensures c[i] != list {
      if 0 < i <= |l| { assert c[i] == l[i - 1]; }
    }
  }

  lemma CutNoDup<T>(list: ListHead<T>, head: ListHead<T>, l: seq<ListHead<T>>, k: int)
    requires NoDup([head] + l) && list !in l && 0 <= k <= |l|
    ensures NoDup([list] + l[..k]) && NoDup([head] + l[k..])
  {
    var a, b, d := [head] + l, [list] + l[..k], [head] + l[k..];
    forall i, j | 0 <= i < j < |b| ensures b[i] != b[j] { assert b[j] == a[j] && (i > 0 ==> b[i] == a[i]); }
    forall i, j | 0 <= i < j < |d| ensures d[i] != d[j] { assert d[j] == a[j + k] && d[i] == a[if i == 0 then 0 else i + k]; }
  }

  /** __list_cut_position, for the entry at index `i`. */
  method CutAt<T>(list: ListHead<T>, head: ListHead<T>, entry: ListHead<T>, ghost l: seq<ListHead<T>>, ghost i: int)
    requires Ring(head, l) && 0 <= i < |l| && entry == l[i] && list != head && list !in l
    modifies list`next, list`prev, head`next, head`prev, l`next, l`prev
    ensures Ring(list, l[..i + 1]) && Ring(head, l[i + 1..])
  {
    hide NoDup, Circle, Threaded;
    ghost var c := Circle(head, l);
    CircleParts(head, l, i);
    Neighbours(c, i + 1);
    Neighbours(c, 0);
    CutDistinct(head, l, list, i + 1);
    CutNoDup(list, head, l, i + 1);
    var newFirst := entry.next;
    list.next := head.next;
    list.next.prev := list;
    list.prev := entry;
    entry.next := list;
    head.next := newFirst;
    newFirst.prev := head;
    CutFront(c, list, i + 1);
    CutRest(c, i + 1);
    CutCircles(list, head, l, i);
  }

  lemma CircleParts<T>(head: ListHead<T>, l: seq<ListHead<T>>, i: int)
    requires 0 <= i < |l|
    ensures |Circle(head, l)| == |l| + 2 && Circle(head, l)[0] == head && Circle(head, l)[i + 1] == l[i]
    ensures Circle(head, l)[1] == l[0] && Circle(head, l)[i + 2] == if i + 1 < |l| then l[i + 1] else head
  {
  }

  lemma CutCircles<T>(list: ListHead<T>, head: ListHead<T>, l: seq<ListHead<T>>, i: int)
    requires 0 <= i < |l|
    ensures Circle(list, l[..i + 1]) == [list] + Circle(head, l)[1..i + 2] + [list]
    ensures Circle(head, l[i + 1..]) == [Circle(head, l)[0]] + Circle(head, l)[i + 2..]
  {
    assert Circle(head, l)[1..i + 2] == l[..i + 1];
    assert Circle(head, l)[i + 2..] == l[i + 1..] + [head];
  }

  /** list_cut_position: the entries up to and including `entry` move to `list`. */
  method ListCutPosition<T>(list: ListHead<T>, head: ListHead<T>, entry: ListHead<T>, ghost l: seq<ListHead<T>>, ghost i: int)
    requires Ring(head, l) && list != head && list !in l && entry != list
    requires entry == head || (0 <= i < |l| && entry == l[i]) || |l| <= 1
    modifies list`next, list`prev, head`next, head`prev, l`next, l`prev
    ensures l != [] && entry == head ==> Ring(list, []) && Ring(head, l)
    ensures entry != head && 0 <= i < |l| && entry == l[i] ==> Ring(list, l[..i + 1]) && Ring(head, l[i + 1..])
    ensures l == [] || (entry != head && entry !in l) ==>
      forall u :: u == list || u == head || u in l ==> u.next == old(u.next) && u.prev == old(u.prev)
  {
    ghost var c := Circle(head, l);
    Neighbours(c, 0);
    Neighbours(c, |c| - 2);
    CircleDistinct(head, l);
    if head.next == head { return; }
    if head.next == head.prev && head.next != entry && head != entry { return; }
    if entry == head {
      Init(list);
      Unconcerned(c);
    } else {
      CutAt(list, head, entry, l, if |l| == 1 then 0 else i);
    }
  }

  // ---------- the message queue of a task ----------

  /** All nodes are embedded in entries. */
  ghost predicate Embedded<T>(l: seq<ListHead<T>>) { forall i :: 0 <= i < |l| ==> l[i].entry.Some? }

  ghost function Entries<T>(l: seq<ListHead<T>>): seq<T>
    requires Embedded(l)
  {
    seq(|l|, i requires 0 <= i < |l| => l[i].entry.value)
  }

  lemma NoEntries<T>(l: seq<ListHead<T>>)
    ensures Embedded(l[..0]) && Entries(l[..0]) == []
  {
  }

  lemma EntriesAppend<T>(l: seq<ListHead<T>>, node: ListHead<T>)
    requires Embedded(l) && node.entry.Some?
    ensures Embedded(l + [node]) && Entries(l + [node]) == Entries(l) + [node.entry.value]
  {
  }

  /** A message; its handler does nothing but post further messages to the same task. */
  datatype Msg = Msg(id: nat, posts: seq<Msg>)

  const UINT32: int := 0x1_0000_0000

  function PostsOf(ms: seq<Msg>): seq<Msg>
  {
    if ms == [] then [] else PostsOf(ms[..|ms| - 1]) + ms[|ms| - 1].posts
  }

  class TaskQueue {
    const msgs: ListHead<Msg>
    var numMsgs: nat                        // uint32_t
    ghost var nodes: seq<ListHead<Msg>>

    ghost predicate Ok()
      reads `numMsgs, `nodes, msgs, nodes
    {
      && Ring(msgs, nodes) && Embedded(nodes)
      && numMsgs == |nodes| % UINT32
    }

    /** The messages in the queue. */
    ghost function Contents(): seq<Msg>
      reads `nodes
      requires Embedded(nodes)
    {
      Entries(nodes)
    }

    /** task_queue_init */
    constructor ()
      ensures Ok() && Contents() == [] && fresh(msgs)
    {
      msgs := new ListHead(None);
      numMsgs, nodes := 0, [];
    }

    /** task_queue_add */
    method Add(msg: Msg)
      requires Ok()
      modifies `numMsgs, `nodes, msgs, nodes
      ensures Ok() && Contents() == old(Contents()) + [msg]
      ensures |nodes| == |old(nodes)| + 1 && nodes[..|old(nodes)|] == old(nodes) && fresh(nodes[|old(nodes)|])
    {
      hide Ring, Embedded, Entries;
      var le := new ListHead(Some(msg));
      EntriesAppend(nodes, le);
      ListAddTail(le, msgs, nodes);
      nodes := nodes + [le];
      numMsgs := (numMsgs + 1) % UINT32;
    }

    /** The nodes of the queue are those of `before` and nodes allocated since. */
    twostate predicate Grown(before: seq<ListHead<Msg>>)
      reads `nodes
    {
      |before| <= |nodes| && nodes[..|before|] == before && forall j :: |before| <= j < |nodes| ==> fresh(nodes[j])
    }

    /** The handler of `m`: posts its messages to this queue. */
    method Handle(m: Msg)
      requires Ok()
      modifies `numMsgs, `nodes, msgs, nodes
      ensures Ok() && Contents() == old(Contents()) + m.posts && Grown(old(nodes))
    {
      var i := 0;
      assert Contents() + m.posts[..0] == Contents();
      while i < |m.posts|
        invariant 0 <= i <= |m.posts| && Ok() && Contents() == old(Contents()) + m.posts[..i] && Grown(old(nodes))
      {
        Add(m.posts[i]);
        assert m.posts[..i + 1] == m.posts[..i] + [m.posts[i]];
        i := i + 1;
      }
      assert m.posts[..i] == m.posts;
    }

    /** The list of `head` and `rest` shares no node with the queue. */
    ghost predicate Apart(head: ListHead<Msg>, rest: seq<ListHead<Msg>>)
      reads `nodes
    {
      && head != msgs && head !in nodes && msgs !in rest
      && forall n :: n in rest ==> n !in nodes
    }

    /** The part of the callback that holds the lock: takes all messages off the queue. */
    method TakeAll(tmp: ListHead<Msg>)
      requires Ok() && Ring(tmp, []) && Apart(tmp, [])
      modifies `numMsgs, `nodes, msgs, nodes, tmp
      ensures Ok() && nodes == [] && Ring(tmp, old(nodes)) && Apart(tmp, old(nodes))
    {
      ghost var c := Circle(msgs, nodes);
      Neighbours(c, |c| - 2);
      CircleDistinct(msgs, nodes);
      ghost var l := nodes;
      ListCutPosition(tmp, msgs, msgs.prev, l, |l| - 1);
      if l == [] {
        Unconcerned(Circle(msgs, []));
        Unconcerned(Circle(tmp, []));
      } else {
        assert c[|c| - 2] == l[|l| - 1] && c[0] == msgs;
        assert l[..|l|] == l && l[|l|..] == [];
      }
      nodes := [];
      numMsgs := 0;
      TakenApart(tmp, msgs, l);
    }

    lemma TakenApart(tmp: ListHead<Msg>, head: ListHead<Msg>, l: seq<ListHead<Msg>>)
      requires NoDup([head] + l) && tmp != head && tmp !in l && nodes == [] && head == msgs
      ensures Apart(tmp, l)
    {
      forall i | 0 <= i < |l| ensures l[i] != head { assert ([head] + l)[0] != ([head] + l)[i + 1]; }
    }

    /** Takes the first message off the list that was taken off the queue. */
    method DetachFirst(tmp: ListHead<Msg>, ghost rest: seq<ListHead<Msg>>) returns (m: Msg)
      requires Ok() && Ring(tmp, rest) && Apart(tmp, rest) && rest != [] && Embedded(rest)
      modifies tmp, rest
      ensures m == rest[0].entry.value && Ok() && Ring(tmp, rest[1..])
    {
      Neighbours(Circle(tmp, rest), 0);
      var p := tmp.next;
      ListDelInit(p, tmp, rest, 0);
      assert rest[..0] + rest[1..] == rest[1..];
      Unconcerned(Circle(msgs, nodes));
      m := p.entry.value;
    }

    /** Runs the first message of the list taken off the queue. */
    method RunFirst(tmp: ListHead<Msg>, ghost rest: seq<ListHead<Msg>>) returns (m: Msg)
      requires Ok() && Ring(tmp, rest) && Apart(tmp, rest) && rest != [] && Embedded(rest)
      modifies `numMsgs, `nodes, msgs, nodes, tmp, rest
      ensures m == rest[0].entry.value
      ensures Ok() && Contents() == old(Contents()) + m.posts && Grown(old(nodes))
      ensures Ring(tmp, rest[1..]) && Apart(tmp, rest[1..])
    {
      m := DetachFirst(tmp, rest);
      label taken:
      Handle(m);
      assert forall u :: u in Circle(tmp, rest[1..]) ==> u == tmp || u in rest;
      Unconcerned@taken(Circle(tmp, rest[1..]));
      StillApart(rest[1..]);
    }

    twostate lemma StillApart(rest: seq<ListHead<Msg>>)
      requires Grown(old(nodes)) && forall n :: n in rest ==> n !in old(nodes)
      ensures forall n :: n in rest ==> n !in nodes
    {
      forall n | n in rest ensures n !in nodes {
        forall j | 0 <= j < |nodes| ensures nodes[j] != n {
          if j < |old(nodes)| { assert nodes[..|old(nodes)|][j] in old(nodes); }
        }
      }
    }

    /** The state of the callback when the messages before index `k` of `batch` have run. */
    ghost predicate Draining(tmp: ListHead<Msg>, batch: seq<ListHead<Msg>>, k: int, log: seq<Msg>)
      reads `numMsgs, `nodes, msgs, nodes, tmp, batch
    {
      && 0 <= k <= |batch| && Ok() && Ring(tmp, batch[k..]) && Apart(tmp, batch[k..])
      && Embedded(batch) && log == Entries(batch[..k]) && Contents() == PostsOf(log)
    }

    /** One round of the loop of the callback. */
    method RunOne(tmp: ListHead<Msg>, log0: seq<Msg>, ghost batch: seq<ListHead<Msg>>, ghost k: int) returns (log: seq<Msg>)
      requires Draining(tmp, batch, k, log0) && k < |batch|
      modifies `numMsgs, `nodes, msgs, nodes, tmp, batch
      ensures Draining(tmp, batch, k + 1, log) && Grown(old(nodes))
    {
      assert forall n :: n in batch[k..] ==> n in batch;
      var m := RunFirst(tmp, batch[k..]);
      assert batch[k..][1..] == batch[k + 1..] && batch[..k + 1] == batch[..k] + [batch[k]];
      log := log0 + [m];
      assert log[..|log| - 1] == log0;
    }

    lemma DrainStarts(tmp: ListHead<Msg>, batch: seq<ListHead<Msg>>)
      requires Ok() && nodes == [] && Ring(tmp, batch) && Apart(tmp, batch) && Embedded(batch)
      ensures Draining(tmp, batch, 0, [])
    {
      assert batch[0..] == batch && batch[..0] == [];
    }

    lemma DrainEnds(tmp: ListHead<Msg>, batch: seq<ListHead<Msg>>, k: int, log: seq<Msg>)
      requires Draining(tmp, batch, k, log) && k == |batch|
      ensures Ok() && Embedded(batch) && log == Entries(batch) && Contents() == PostsOf(log)
    {
      assert batch[..k] == batch;
    }

    /** The condition of the loop of the callback. */
    method IsDrained(tmp: ListHead<Msg>, ghost batch: seq<ListHead<Msg>>, ghost k: int, ghost log: seq<Msg>) returns (empty: bool)
      requires Draining(tmp, batch, k, log)
      ensures empty <==> k == |batch|
      ensures 0 <= k <= |batch|
    {
      empty := ListEmpty(tmp, batch[k..]);
    }

    /** task_queue_noti_callback: runs what is in the queue, in order; what the handlers post
        meanwhile is in the queue afterwards. */
    method Drain() returns (log: seq<Msg>)
      requires Ok()
      modifies `numMsgs, `nodes, msgs, nodes
      ensures Ok() && log == old(Contents()) && Contents() == PostsOf(log)
    {
      hide Ring, Embedded, Entries, Apart, Draining;
      var tmp := new ListHead(None);
      ghost var batch := nodes;
      NewApart(tmp);
      TakeAll(tmp);
      DrainStarts(tmp, batch);
      ghost var k := 0;
      log := [];
      while true
        invariant Draining(tmp, batch, k, log)
        invariant forall i :: 0 <= i < |nodes| ==> fresh(nodes[i])
        decreases |batch| - k
      {
        var empty := IsDrained(tmp, batch, k, log);
        if empty { break; }
        log := RunOne(tmp, log, batch, k);
        k := k + 1;
      }
      DrainEnds(tmp, batch, k, log);
    }

    lemma NewApart(tmp: ListHead<Msg>)
      requires tmp != msgs && tmp !in nodes
      ensures Apart(tmp, [])
    {
    }
  }
}

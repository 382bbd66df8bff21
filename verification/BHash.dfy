/** The bucket hash: intrusive lists of elements, one per bucket, refining a map from keys. */
module BHash {
  import opened IntrusiveList

  /** The loop of bhash_init. */
  method InitBuckets<K>(buckets: seq<ListHead<K>>)
    requires NoDup(buckets)
    modifies buckets
    ensures forall b :: 0 <= b < |buckets| ==> Ring(buckets[b], [])
  {
    var i := 0;
    while i < |buckets|
      invariant 0 <= i <= |buckets|
      invariant forall b :: 0 <= b < i ==> buckets[b].next == buckets[b] && buckets[b].prev == buckets[b]
    {
      buckets[i].next := buckets[i];
      buckets[i].prev := buckets[i];
      i := i + 1;
    }
  }

  lemma LeftOver<T>(l: seq<ListHead<T>>, i: nat)
    requires NoDup(l) && i < |l|
    ensures forall u :: u in l[..i] + l[i + 1..] <==> u in l && u != l[i]
  {
    var r := l[..i] + l[i + 1..];
    forall u | u in l && u != l[i] ensures u in r {
      var j :| 0 <= j < |l| && l[j] == u;
      assert r[if j < i then j else j - 1] == u;
    }
  }

  class BHashContext<K(==, !new)> {
    const buckets: seq<ListHead<K>>              // an element's node leads to the element's key
    const calcHash: K -> nat
    ghost var lists: seq<seq<ListHead<K>>>       // the nodes of every bucket, in order
    ghost var nodes: set<ListHead<K>>            // all of them
    ghost var contents: map<K, ListHead<K>>      // the map that the hash implements

    function Bucket(key: K): (ndx: nat)
      requires |buckets| > 0
      ensures ndx < |buckets|
    {
      calcHash(key) % |buckets|
    }

    ghost predicate HeadsOk()
    {
      |buckets| > 0 && NoDup(buckets) && forall b :: 0 <= b < |buckets| ==> buckets[b].entry.None?
    }

    /** Every bucket is a list of its own. */
    ghost predicate RingsOk()
      reads `lists, `nodes, buckets, nodes
    {
      && |lists| == |buckets|
      && (forall b :: 0 <= b < |buckets| ==> forall u :: u in lists[b] ==> u in nodes && u.entry.Some?)
      && (forall b :: 0 <= b < |buckets| ==> Ring(buckets[b], lists[b]))
    }

    /** A key is in the map just when an element with this key is in the key's bucket; that is the
        only element with this key. */
    ghost predicate MapOk()
      reads `lists, `contents
    {
      && |lists| == |buckets| > 0
      && (forall b :: 0 <= b < |buckets| ==> forall u :: u in lists[b] ==>
            u.entry.Some? && Bucket(u.entry.value) == b && u.entry.value in contents && contents[u.entry.value] == u)
      && (forall k :: k in contents ==> contents[k] in lists[Bucket(k)] && contents[k].entry == Some(k))
    }

    ghost predicate Ok()
      reads `lists, `nodes, `contents, buckets, nodes
    {
      HeadsOk() && RingsOk() && MapOk()
    }

    /** bhash_init, given the buckets */
    constructor (buckets: seq<ListHead<K>>, func: K -> nat)
      requires |buckets| > 0 && NoDup(buckets) && forall b :: 0 <= b < |buckets| ==> buckets[b].entry.None?
      modifies buckets
      ensures Ok() && contents == map[] && nodes == {} && this.buckets == buckets && calcHash == func
    {
      this.buckets, calcHash, contents, nodes := buckets, func, map[], {};
      lists := seq(|buckets|, _ => []);
      new;
      InitBuckets(buckets);
    }

    /** bhash_lookup */
    method Lookup(key: K) returns (found: ListHead?<K>)
      requires Ok()
      ensures found == if key in contents then contents[key] else null
    {
      var ndx := Bucket(key);
      var head := buckets[ndx];
      ghost var l, i := lists[ndx], 0;
      ghost var c := Circle(head, l);
      Neighbours(c, 0);
      CircleDistinct(head, l);
      var pos := head.next;
      while pos != head
        invariant 0 <= i <= |l| && pos == c[i + 1]
        invariant forall j :: 0 <= j < i ==> l[j].entry != Some(key)
        decreases |l| - i
      {
        assert pos == l[i];
        if pos.entry.value == key { return pos; }
        Neighbours(c, i + 1);
        pos := pos.next;
        i := i + 1;
      }
      return null;
    }

    /** The list part of bhash_add. */
    method Append(element: ListHead<K>, ndx: nat)
      requires HeadsOk() && RingsOk() && MapOk() && ndx < |buckets|
      requires element.entry.Some? && forall b :: 0 <= b < |buckets| ==> element !in lists[b] && element != buckets[b]
      modifies `lists, `nodes, buckets, nodes, element
      ensures RingsOk() && lists == old(lists)[ndx := old(lists)[ndx] + [element]] && nodes == old(nodes) + {element}
    {
      ListAddTail(element, buckets[ndx], lists[ndx]);
      lists := lists[ndx := lists[ndx] + [element]];
      nodes := nodes + {element};
      Kept(ndx);
    }

    twostate lemma MapWith(element: ListHead<K>)
      requires old(MapOk()) && element.entry.Some? && element.entry.value !in old(contents)
      requires var ndx := Bucket(element.entry.value);
        ndx < |old(lists)| && lists == old(lists)[ndx := old(lists)[ndx] + [element]]
      requires contents == old(contents)[element.entry.value := element]
      ensures MapOk()
    {
    }

    lemma ListsSize()
      requires MapOk()
      ensures |lists| == |buckets| > 0
    {
    }

    /** bhash_add */
    method Add(element: ListHead<K>) returns (ok: bool)
      requires Ok() && element.entry.Some?
      modifies `lists, `nodes, `contents, buckets, nodes, element
      ensures Ok() && (ok <==> element.entry.value !in old(contents))
      ensures contents == if ok then old(contents)[element.entry.value := element] else old(contents)
    {
      hide RingsOk, HeadsOk, MapOk;
      var key := element.entry.value;
      var found := Lookup(key);
      if found != null { return false; }
      ListsSize();
      var ndx := Bucket(key);
      NotInBuckets(element);
      Append(element, ndx);
      contents := contents[key := element];
      MapWith(element);
      return true;
    }

    /** The list part of bhash_del, for element `i` of a bucket. */
    method Remove(pos: ListHead<K>, ghost ndx: nat, ghost i: nat)
      requires HeadsOk() && RingsOk() && MapOk() && ndx < |buckets| && i < |lists[ndx]| && pos == lists[ndx][i]
      modifies `lists, buckets, nodes
      ensures RingsOk() && lists == old(lists)[ndx := old(lists)[ndx][..i] + old(lists)[ndx][i + 1..]]
      ensures pos.next == null && pos.prev == null
    {
      ListDel(pos, buckets[ndx], lists[ndx], i);
      lists := lists[ndx := lists[ndx][..i] + lists[ndx][i + 1..]];
      Kept(ndx);
    }

    twostate lemma MapWithout(new key: K, new i: nat)
      requires old(MapOk()) && key in old(contents) && contents == old(contents) - {key}
      requires i < |old(lists[Bucket(key)])| && old(contents[key]) == old(lists[Bucket(key)][i])
      requires NoDup(old(lists[Bucket(key)]))
      requires lists == old(lists)[Bucket(key) := old(lists[Bucket(key)])[..i] + old(lists[Bucket(key)])[i + 1..]]
      ensures MapOk()
    {
      hide NoDup;
      var l := old(lists[Bucket(key)]);
      LeftOver(l, i);
      forall b, u | 0 <= b < |buckets| && u in lists[b]
        ensures u.entry.Some? && Bucket(u.entry.value) == b && u.entry.value in contents && contents[u.entry.value] == u
      {
        assert u in old(lists[b]);
      }
    }

    /** bhash_del for a key that is there. */
    method DelPresent(key: K)
      requires Ok() && key in contents
      modifies `lists, `contents, buckets, nodes
      ensures Ok() && contents == old(contents) - {key}
      ensures old(contents)[key].next == null && old(contents)[key].prev == null
    {
      var pos; ghost var i;
      pos, i := Find(key);
      Remove(pos, Bucket(key), i);
      contents := contents - {key};
      MapWithout(key, i);
    }

    /** bhash_del: when the key is there, exactly its element goes, with its links cleared. */
    method Del(key: K) returns (ok: bool)
      requires Ok()
      modifies `lists, `contents, buckets, nodes
      ensures Ok() && (ok <==> key in old(contents)) && contents == old(contents) - {key}
      ensures ok ==> old(contents)[key].next == null && old(contents)[key].prev == null
    {
      var found := Lookup(key);
      if found == null { return false; }
      DelPresent(key);
      return true;
    }

    /** The search of bhash_del. */
    method Find(key: K) returns (pos: ListHead<K>, ghost i: nat)
      requires Ok() && key in contents
      ensures i < |lists[Bucket(key)]| && pos == lists[Bucket(key)][i] == contents[key] && NoDup(lists[Bucket(key)])
    {
      var ndx := Bucket(key);
      var head := buckets[ndx];
      ghost var l := lists[ndx];
      ghost var c := Circle(head, l);
      Neighbours(c, 0);
      CircleDistinct(head, l);
      assert NoDup(l) by {
        forall j, k | 0 <= j < k < |l| ensures l[j] != l[k] { assert c[j + 1] != c[k + 1]; }
      }
      i := 0;
      var p := head.next;
      while p != head && p.entry.value != key
        invariant 0 <= i < |l| && p == c[i + 1] == l[i]
        invariant contents[key] !in l[..i]
        decreases |l| - i
      {
        Neighbours(c, i + 1);
        p := p.next;
        i := i + 1;
      }
      pos := p;
    }

    /** An element whose key is not in the map is on none of the lists. */
    lemma NotInBuckets(element: ListHead<K>)
      requires Ok() && element.entry.Some? && element.entry.value !in contents
      ensures forall b :: 0 <= b < |buckets| ==> element !in lists[b] && element != buckets[b]
    {
    }

    /** Work on one bucket leaves the lists of the others alone. */
    twostate lemma Kept(new ndx: int)
      requires old(Ok()) && 0 <= ndx < |buckets| && |lists| == |buckets| && Ring(buckets[ndx], lists[ndx])
      requires forall b :: 0 <= b < |buckets| && b != ndx ==> lists[b] == old(lists[b])
      requires forall b :: 0 <= b < |buckets| && b != ndx ==>
        forall u :: u in old(lists[b]) ==> u.next == old(u.next) && u.prev == old(u.prev)
      requires forall b :: 0 <= b < |buckets| && b != ndx ==> buckets[b].next == old(buckets[b].next) && buckets[b].prev == old(buckets[b].prev)
      ensures forall b :: 0 <= b < |buckets| ==> Ring(buckets[b], lists[b])
    {
      forall b | 0 <= b < |buckets| && b != ndx ensures Ring(buckets[b], lists[b]) {
        assert old(Ring(buckets[b], lists[b]));
        Unconcerned(Circle(buckets[b], lists[b]));
      }
    }
  }
}

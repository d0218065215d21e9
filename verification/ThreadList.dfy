/** The embedded doubly linked thread lists of kern/prog/thrlist.c: a thread
    carries the links, so it is in at most one list. */
module ThreadList {
  import opened Collections

  datatype Tag = Running | Blocked | Sleeping | Waiting | Zombie

  /** A thread control block; `home` is the waiting list of its process. */
  class Thread {
    const tid: nat
    const home: List
    var state: Tag
    var wake: nat
    var list: List?
    var next: Thread?
    var prev: Thread?
    var hashNext: Thread?
    var hashPrev: Thread?

    constructor (tid: nat, home: List)
      ensures this.tid == tid && this.home == home && state == Zombie && wake == 0
      ensures list == null && next == null && prev == null && hashNext == null && hashPrev == null
    {
      this.tid, this.home, state, wake := tid, home, Zombie, 0;
      list, next, prev, hashNext, hashPrev := null, null, null, null, null;
    }
  }

  class List {
    var head: Thread?
    var tail: Thread?
    var size: nat
    /** The threads from head to tail. */
    ghost var nodes: seq<Thread>

    constructor ()
      ensures nodes == [] && Chained(this)
    {
      head, tail, size, nodes := null, null, 0, [];
    }
  }

  datatype Outcome = Ok | NotInList | InList

  function At(nodes: seq<Thread>, i: int): Thread? {
    if 0 <= i < |nodes| then nodes[i] else null
  }

  /** The links of thread `i` of the list. */
  ghost predicate Linked(l: List, i: nat)
    requires i < |l.nodes|
    reads l, l.nodes`list, l.nodes`next, l.nodes`prev
  {
    && l.nodes[i].list == l
    && l.nodes[i].next == At(l.nodes, i + 1)
    && l.nodes[i].prev == At(l.nodes, i - 1)
  }

  /** A well-formed doubly linked list. */
  ghost predicate Chained(l: List)
    reads l, l.nodes`list, l.nodes`next, l.nodes`prev
  {
    && l.size == |l.nodes|
    && l.head == At(l.nodes, 0)
    && l.tail == At(l.nodes, |l.nodes| - 1)
    && NoDuplicates(l.nodes)
    && forall i :: 0 <= i < |l.nodes| ==> Linked(l, i)
  }

  /** All lists are well formed, and a thread's `list` names the one list it is
      in. */
  ghost predicate Coherent(lists: set<List>, threads: set<Thread>)
    reads lists, threads`list, threads`next, threads`prev
  {
    && (forall l, x :: l in lists && x in l.nodes ==> x in threads)
    && (forall l :: l in lists ==> Chained(l))
    && (forall t :: t in threads && t.list != null ==> t.list in lists && t in t.list.nodes)
  }

  lemma MemberLinked(l: List, t: Thread) returns (i: nat)
    requires Chained(l) && t in l.nodes
    ensures i < |l.nodes| && l.nodes[i] == t && Linked(l, i) && NoDuplicates(l.nodes)
  {
    i :| 0 <= i < |l.nodes| && l.nodes[i] == t;
  }

  /** A thread is in at most one list. */
  lemma OneList(lists: set<List>, threads: set<Thread>, l: List, m: List, t: Thread)
    requires Coherent(lists, threads) && l in lists && m in lists && t in l.nodes && t in m.nodes
    ensures l == m && t.list == l
  {
    var i := MemberLinked(l, t);
    var j := MemberLinked(m, t);
  }

  lemma ListKnown(t: Thread, lists: set<List>, threads: set<Thread>)
    requires Coherent(lists, threads) && t in threads
    ensures t.list != null ==> t.list in lists
    ensures forall m, x :: m in lists && x in m.nodes ==> x in threads
  {
  }

  lemma Listing(l: List, t: Thread, lists: set<List>, threads: set<Thread>)
    requires Coherent(lists, threads) && l in lists && t in l.nodes
    ensures t.list == l
  {
    OneList(lists, threads, l, l, t);
  }

  /** An empty list and a thread in no list may join. */
  lemma CoherentGrows(lists: set<List>, threads: set<Thread>, l: List, t: Thread)
    requires Coherent(lists, threads) && t.list == null && (l in lists || (Chained(l) && l.nodes == []))
    ensures Coherent(lists + {l}, threads + {t})
  {
    hide Chained;
  }

  /** What the fields of a list say about it. */
  lemma Ends(l: List, lists: set<List>, threads: set<Thread>)
    requires Coherent(lists, threads) && l in lists
    ensures l.size == |l.nodes| && l.head == At(l.nodes, 0)
    ensures forall x :: x in l.nodes ==> x in threads
  {
  }

  /** A thread in no list is in no chain. */
  lemma FreeThread(l: List, t: Thread)
    requires Chained(l) && t.list != l
    ensures t !in l.nodes
  {
    if t in l.nodes {
      var i := MemberLinked(l, t);
    }
  }

  /** List `m` holds neither `t` nor a thread of `l`. */
  ghost predicate Apart(m: List, l: List, t: Thread)
    reads m, l
  {
    forall i :: 0 <= i < |m.nodes| ==> m.nodes[i] != t && m.nodes[i] !in l.nodes
  }

  lemma OthersApart(l: List, t: Thread, lists: set<List>, threads: set<Thread>)
    requires Coherent(lists, threads) && l in lists && t.list in {null, l}
    ensures forall m :: m in lists && m != l ==> Apart(m, l, t)
  {
    forall m | m in lists && m != l
      ensures Apart(m, l, t)
    {
      forall i | 0 <= i < |m.nodes|
        ensures m.nodes[i] != t && m.nodes[i] !in l.nodes
      {
        assert Linked(m, i);
        FreeThread(l, m.nodes[i]);
      }
    }
  }

  // ----- the place of a sleeper -----

  /** Where a sleeper due at `w` goes: behind the last one that is not due
      later. */
  function Slot(wakes: seq<nat>, w: nat): (k: nat)
    ensures k <= |wakes|
    ensures k > 0 ==> wakes[k - 1] <= w
    ensures forall i :: k <= i < |wakes| ==> w < wakes[i]
  {
    if wakes == [] || wakes[|wakes| - 1] <= w then |wakes| else Slot(wakes[..|wakes| - 1], w)
  }

  lemma SlotIs(wakes: seq<nat>, w: nat, k: nat)
    requires k <= |wakes| && (k > 0 ==> wakes[k - 1] <= w) && forall i :: k <= i < |wakes| ==> w < wakes[i]
    ensures k == Slot(wakes, w)
  {
    hide Slot;
  }

  predicate Sorted(wakes: seq<nat>) {
    forall i, j :: 0 <= i < j < |wakes| ==> wakes[i] <= wakes[j]
  }

  function Inserted<T>(s: seq<T>, k: nat, x: T): (r: seq<T>)
    requires k <= |s|
  {
    s[..k] + [x] + s[k..]
  }

  lemma InsertedEnds<T>(s: seq<T>, x: T)
    ensures Inserted(s, 0, x) == [x] + s && Inserted(s, |s|, x) == s + [x]
  {
  }

  /** A sorted list stays sorted, and among sleepers due at the same time the
      newcomer is last. */
  lemma InsertSorted(wakes: seq<nat>, w: nat)
    requires Sorted(wakes)
    ensures Sorted(Inserted(wakes, Slot(wakes, w), w))
    ensures forall i :: 0 <= i < |wakes| ==> (i < Slot(wakes, w) <==> wakes[i] <= w)
  {
    var k := Slot(wakes, w);
    hide Slot;
    forall i | 0 <= i < k
      ensures wakes[i] <= w
    {
      assert wakes[i] <= wakes[k - 1];
    }
    InsertedSorted(wakes, k, w);
  }

  lemma InsertedSorted(wakes: seq<nat>, k: nat, w: nat)
    requires Sorted(wakes) && k <= |wakes|
    requires (forall i :: 0 <= i < k ==> wakes[i] <= w) && forall i :: k <= i < |wakes| ==> w <= wakes[i]
    ensures Sorted(Inserted(wakes, k, w))
  {
    var r := Inserted(wakes, k, w);
    forall i, j | 0 <= i < j < |r|
      ensures r[i] <= r[j]
    {
      assert r[i] == if i < k then wakes[i] else if i == k then w else wakes[i - 1];
      assert r[j] == if j < k then wakes[j] else if j == k then w else wakes[j - 1];
    }
  }

  ghost function Wakes(nodes: seq<Thread>): (r: seq<nat>)
    reads nodes
    ensures |r| == |nodes| && forall i :: 0 <= i < |nodes| ==> r[i] == nodes[i].wake
  {
    if nodes == [] then [] else Wakes(nodes[..|nodes| - 1]) + [nodes[|nodes| - 1].wake]
  }

  // ----- the link updates -----

  /** The stores of thrlist_add_head. */
  method LinkHead(t: Thread, l: List)
    requires Chained(l) && t.list == null
    modifies l, t`list, t`next, t`prev, l.nodes`prev
    ensures Chained(l) && l.nodes == [t] + old(l.nodes) && t.list == l
  {
    FreeThread(l, t);
    t.next := l.head;
    t.prev := null;
    if l.size > 0 {
      l.head.prev := t;
    } else {
      l.tail := t;
    }
    l.head := t;
    l.size := l.size + 1;
    t.list := l;
    l.nodes := [t] + l.nodes;
    forall i | 0 <= i < |l.nodes|
      ensures Linked(l, i)
    {
      assert i > 0 ==> l.nodes[i] == old(l.nodes)[i - 1] && old(Linked(l, i - 1));
    }
  }

  method LinkTail(t: Thread, l: List)
    requires Chained(l) && t.list == null
    modifies l, t`list, t`next, t`prev, l.nodes`next
    ensures Chained(l) && l.nodes == old(l.nodes) + [t] && t.list == l
  {
    FreeThread(l, t);
    t.prev := l.tail;
    t.next := null;
    if l.size > 0 {
      l.tail.next := t;
    } else {
      l.head := t;
    }
    l.tail := t;
    l.size := l.size + 1;
    t.list := l;
    l.nodes := l.nodes + [t];
    forall i | 0 <= i < |l.nodes|
      ensures Linked(l, i)
    {
      assert i < |old(l.nodes)| ==> l.nodes[i] == old(l.nodes)[i] && old(Linked(l, i));
    }
  }

  /** The stores of thrlist_add_sorted: `t` goes right after the thread at
      place `k`, which is not the last. */
  method LinkAfter(t: Thread, l: List, current: Thread, ghost k: nat)
    requires Chained(l) && t.list == null && k + 1 < |l.nodes| && l.nodes[k] == current
    modifies l, t`list, t`next, t`prev, l.nodes`next, l.nodes`prev
    ensures Chained(l) && l.nodes == old(l.nodes)[..k + 1] + [t] + old(l.nodes)[k + 1..] && t.list == l
  {
    FreeThread(l, t);
    assert Linked(l, k) && Linked(l, k + 1);
    t.prev := current;
    t.next := current.next;
    if current.next != null {
      current.next.prev := t;
    }
    current.next := t;
    l.size := l.size + 1;
    t.list := l;
    l.nodes := l.nodes[..k + 1] + [t] + l.nodes[k + 1..];
    forall i | 0 <= i < |l.nodes|
      ensures Linked(l, i)
    {
      if i <= k {
        assert l.nodes[i] == old(l.nodes)[i] && old(Linked(l, i));
      } else if i > k + 1 {
        assert l.nodes[i] == old(l.nodes)[i - 1] && old(Linked(l, i - 1));
      }
    }
  }

  method Unlink(t: Thread, l: List, ghost k: nat)
    requires Chained(l) && t.list == l && k < |l.nodes| && l.nodes[k] == t
    modifies l, t`list, l.nodes`next, l.nodes`prev
    ensures Chained(l) && l.nodes == old(l.nodes)[..k] + old(l.nodes)[k + 1..]
    ensures t.list == null && t.next == null && t.prev == null
  {
    assert Linked(l, k);
    assert k > 0 ==> Linked(l, k - 1);
    assert k + 1 < |l.nodes| ==> Linked(l, k + 1);
    if t.prev != null {
      t.prev.next := t.next;
    } else {
      l.head := t.next;
    }
    if t.next != null {
      t.next.prev := t.prev;
    } else {
      l.tail := t.prev;
    }
    l.size := l.size - 1;
    t.list := null;
    t.next := null;
    t.prev := null;
    l.nodes := l.nodes[..k] + l.nodes[k + 1..];
    forall i | 0 <= i < |l.nodes|
      ensures Linked(l, i)
    {
      if i < k {
        assert l.nodes[i] == old(l.nodes)[i] && old(Linked(l, i));
      } else {
        assert l.nodes[i] == old(l.nodes)[i + 1] && old(Linked(l, i + 1));
      }
    }
  }

  // ----- the list operations, with all lists in view -----

  method AddHead(t: Thread, l: List, ghost lists: set<List>, ghost threads: set<Thread>) returns (r: Outcome)
    requires Coherent(lists, threads) && l in lists && t in threads
    modifies l, t`list, t`next, t`prev, l.nodes`prev
    ensures Coherent(lists, threads)
    ensures r == if old(t.list) != null then InList else Ok
    ensures l.nodes == if r == Ok then [t] + old(l.nodes) else old(l.nodes)
    ensures t.list == if r == Ok then l else old(t.list)
  {
    hide Chained;
    hide Linked;
    if t.list != null {
      return InList;
    }
    OthersApart(l, t, lists, threads);
    LinkHead(t, l);
    forall m | m in lists && m != l
      ensures Chained(m)
    {
      assert old(Chained(m)) && old(Apart(m, l, t));
    }
    return Ok;
  }

  method AddTail(t: Thread, l: List, ghost lists: set<List>, ghost threads: set<Thread>) returns (r: Outcome)
    requires Coherent(lists, threads) && l in lists && t in threads
    modifies l, t`list, t`next, t`prev, l.nodes`next
    ensures Coherent(lists, threads)
    ensures r == if old(t.list) != null then InList else Ok
    ensures l.nodes == if r == Ok then old(l.nodes) + [t] else old(l.nodes)
    ensures t.list == if r == Ok then l else old(t.list)
  {
    hide Chained;
    hide Linked;
    if t.list != null {
      return InList;
    }
    OthersApart(l, t, lists, threads);
    LinkTail(t, l);
    forall m | m in lists && m != l
      ensures Chained(m)
    {
      assert old(Chained(m)) && old(Apart(m, l, t));
    }
    return Ok;
  }

  method AddAfter(t: Thread, l: List, current: Thread, ghost k: nat, ghost lists: set<List>, ghost threads: set<Thread>)
    requires Coherent(lists, threads) && l in lists && t in threads && t.list == null
    requires k + 1 < |l.nodes| && l.nodes[k] == current
    modifies l, t`list, t`next, t`prev, l.nodes`next, l.nodes`prev
    ensures Coherent(lists, threads)
    ensures l.nodes == Inserted(old(l.nodes), k + 1, t) && t.list == l
  {
    hide Chained;
    hide Linked;
    OthersApart(l, t, lists, threads);
    LinkAfter(t, l, current, k);
    forall m | m in lists && m != l
      ensures Chained(m)
    {
      assert old(Chained(m)) && old(Apart(m, l, t));
    }
  }

  /** The walk of thrlist_add_sorted from the tail: the thread that will precede
      the newcomer, null for none. */
  method SlotBefore(wake: nat, l: List) returns (current: Thread?, ghost k: nat)
    requires Chained(l)
    ensures k == Slot(Wakes(l.nodes), wake) && current == At(l.nodes, k - 1)
  {
    hide Slot;
    hide Wakes;
    hide NoDuplicates;
    current := l.tail;
    k := |l.nodes|;
    while current != null && current.wake > wake
      invariant 0 <= k <= |l.nodes|
      invariant current == At(l.nodes, k - 1)
      invariant forall i :: k <= i < |l.nodes| ==> wake < l.nodes[i].wake
      decreases k
    {
      assert Linked(l, k - 1);
      current := current.prev;
      k := k - 1;
    }
    SlotIs(Wakes(l.nodes), wake, k);
  }

  /** The tail of thrlist_add_sorted: behind `current`, which is in place `k - 1`. */
  method AddBehind(t: Thread, l: List, current: Thread?, ghost k: nat, ghost lists: set<List>, ghost threads: set<Thread>) returns (r: Outcome)
    requires Coherent(lists, threads) && l in lists && t in threads && t.list == null
    requires l.nodes != [] && k <= |l.nodes| && current == At(l.nodes, k - 1)
    modifies l, t`list, t`next, t`prev, l.nodes`next, l.nodes`prev
    ensures Coherent(lists, threads)
    ensures r == Ok && l.nodes == Inserted(old(l.nodes), k, t) && t.list == l
  {
    InsertedEnds(l.nodes, t);
    assert Chained(l) && (current == l.tail ==> k == |l.nodes|);
    hide Chained;
    if current == null {
      r := AddHead(t, l, lists, threads);
    } else if current == l.tail {
      r := AddTail(t, l, lists, threads);
    } else {
      AddAfter(t, l, current, k - 1, lists, threads);
      r := Ok;
    }
  }

  method AddSorted(t: Thread, l: List, ghost lists: set<List>, ghost threads: set<Thread>) returns (r: Outcome)
    requires Coherent(lists, threads) && l in lists && t in threads
    modifies l, t`list, t`next, t`prev, l.nodes`next, l.nodes`prev
    ensures Coherent(lists, threads)
    ensures r == if old(t.list) != null then InList else Ok
    ensures l.nodes == if r == Ok then Inserted(old(l.nodes), Slot(old(Wakes(l.nodes)), t.wake), t) else old(l.nodes)
    ensures t.list == if r == Ok then l else old(t.list)
  {
    hide Wakes;
    hide Slot;
    hide NoDuplicates;
    hide Linked;
    if t.list != null {
      return InList;
    }
    if l.size == 0 {
      r := AddHead(t, l, lists, threads);
      return r;
    }
    var current, k := SlotBefore(t.wake, l);
    r := AddBehind(t, l, current, k, lists, threads);
  }

  ghost predicate FirstWith(l: List, i: int, tid: nat)
    reads l
  {
    0 <= i < |l.nodes| && l.nodes[i].tid == tid && forall j :: 0 <= j < i ==> l.nodes[j].tid != tid
  }

  /** The first thread of the list with this id. */
  method Find(tid: nat, l: List) returns (r: Thread?)
    requires Chained(l)
    ensures r == null <==> forall i :: 0 <= i < |l.nodes| ==> l.nodes[i].tid != tid
    ensures r != null ==> r.tid == tid && exists i :: FirstWith(l, i, tid) && l.nodes[i] == r
  {
    r := l.head;
    ghost var k := 0;
    while r != null && r.tid != tid
      invariant 0 <= k <= |l.nodes| && r == At(l.nodes, k)
      invariant forall i :: 0 <= i < k ==> l.nodes[i].tid != tid
      decreases |l.nodes| - k
    {
      assert Linked(l, k);
      r := r.next;
      k := k + 1;
    }
    assert r != null ==> FirstWith(l, k, tid);
  }

  method Remove(t: Thread, ghost lists: set<List>, ghost threads: set<Thread>) returns (r: Outcome)
    requires Coherent(lists, threads) && t in threads
    modifies t.list, t`list, (if t.list != null then t.list.nodes else [])`next, (if t.list != null then t.list.nodes else [])`prev
    ensures Coherent(lists, threads)
    ensures r == if old(t.list) == null then NotInList else Ok
    ensures t.list == null && (r == Ok ==> old(t.list) in lists)
    ensures r == Ok ==> old(t.list).nodes == Without(old(t.list.nodes), t)
  {
    hide Chained;
    hide Linked;
    if t.list == null {
      return NotInList;
    }
    var l := t.list;
    ghost var k := MemberLinked(l, t);
    OthersApart(l, t, lists, threads);
    WithoutPlace(l.nodes, k);
    Unlink(t, l, k);
    forall m | m in lists && m != l
      ensures Chained(m)
    {
      assert old(Chained(m)) && old(Apart(m, l, t));
    }
    return Ok;
  }

  /** thrlist_destroy: all threads leave the list. */
  method Destroy(l: List, ghost lists: set<List>, ghost threads: set<Thread>)
    requires Coherent(lists, threads) && l in lists
    modifies l, l.nodes`list, l.nodes`next, l.nodes`prev
    ensures Coherent(lists, threads)
    ensures l.nodes == [] && forall x :: x in old(l.nodes) ==> x.list == null
  {
    hide Chained;
    hide Linked;
    Ends(l, lists, threads);
    while l.size != 0
      invariant Coherent(lists, threads) && l.size == |l.nodes| && l.head == At(l.nodes, 0)
      invariant forall x :: x in l.nodes ==> x in threads && x in old(l.nodes)
      invariant forall x :: x in old(l.nodes) ==> x in l.nodes || x.list == null
      decreases |l.nodes|
    {
      Listing(l, l.head, lists, threads);
      assert forall i :: 0 <= i < |l.nodes| ==> l.nodes[i] in old(l.nodes);
      NoRepeats(l, lists, threads);
      WithoutMembers(l.nodes, l.head);
      var r := Remove(l.head, lists, threads);
      Ends(l, lists, threads);
    }
  }

  lemma NoRepeats(l: List, lists: set<List>, threads: set<Thread>)
    requires Coherent(lists, threads) && l in lists
    ensures NoDuplicates(l.nodes)
  {
  }
}

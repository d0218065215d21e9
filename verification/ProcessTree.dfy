/** The process control blocks with their embedded sibling chains, updated in place
    (kern/prog/process.c).  Each operation is proved against its function in
    `Lifecycle`. */
module ProcessTree {
  import opened Collections
  import L = Lifecycle
  import R = LifecycleRuns

  /** The sibling links of a thread control block. */
  class Thread {
    const tid: nat
    const process: Process
    var older: Thread?
    var younger: Thread?

    constructor (tid: nat, process: Process)
      ensures this.tid == tid && this.process == process && older == null && younger == null
    {
      this.tid, this.process, older, younger := tid, process, null, null;
    }
  }

  class Process {
    const pid: nat
    var life: L.Life
    var parent: Process?
    var youngest: Process?
    var older: Process?
    var younger: Process?
    var children: nat
    var youngestThread: Thread?
    var active: nat
    var original: Option<Thread>
    var status: int
    /** The chain of children, youngest first; none after exit. */
    ghost var kids: seq<Process>
    /** The chain of threads, youngest first. */
    ghost var family: seq<Thread>

    constructor (pid: nat)
      ensures this.pid == pid && life == L.Alive && parent == null && youngest == null && older == null && younger == null
      ensures children == 0 && family == [] && youngestThread == null && active == 0 && original == None && status == -1 && kids == []
    {
      this.pid, life, parent, youngest, older, younger := pid, L.Alive, null, null, null, null;
      children, youngestThread, active, original, status := 0, null, 0, None, -1;
      kids, family := [], [];
    }
  }

  function At(kids: seq<Process>, i: int): Process? {
    if 0 <= i < |kids| then kids[i] else null
  }

  /** The sibling links of child `i` of a chain. */
  ghost predicate Sibling(kids: seq<Process>, i: nat)
    requires i < |kids|
    reads kids`older, kids`younger
  {
    kids[i].older == At(kids, i + 1) && kids[i].younger == At(kids, i - 1)
  }

  ghost predicate Chain(kids: seq<Process>)
    reads kids`older, kids`younger
  {
    NoDuplicates(kids) && forall i :: 0 <= i < |kids| ==> Sibling(kids, i)
  }

  lemma NoChain()
    ensures Chain([])
  {
  }

  /** The rest of a chain. */
  lemma Rest(kids: seq<Process>, k: nat)
    requires Chain(kids) && k < |kids|
    ensures forall i :: 0 <= i < |Without(kids, kids[k])| ==> Without(kids, kids[k])[i] in kids && Without(kids, kids[k])[i] != kids[k]
  {
    WithoutPlace(kids, k);
  }

  // ----- the link updates -----

  /** copy_process: `child` in front of the chain. */
  method LinkYoungest(parent: Process, child: Process)
    requires Chain(parent.kids) && parent.youngest == At(parent.kids, 0)
    requires child !in parent.kids && child != parent && parent !in parent.kids
    requires child.older == null && child.younger == null
    modifies parent`youngest, parent`children, parent`kids, child`parent, child`older, parent.kids`younger
    ensures child.parent == parent && parent.kids == [child] + old(parent.kids) && Chain(parent.kids)
    ensures parent.youngest == child && parent.children == old(parent.children) + 1
  {
    child.parent := parent;
    if parent.youngest != null {
      parent.youngest.younger := child;
      child.older := parent.youngest;
    }
    parent.youngest := child;
    parent.children := parent.children + 1;
    ghost var chain := parent.kids;
    parent.kids := [child] + chain;
    forall i | 0 <= i < |parent.kids|
      ensures Sibling(parent.kids, i)
    {
      assert i > 0 ==> parent.kids[i] == chain[i - 1] && old(Sibling(parent.kids, i - 1));
    }
  }

  /** The loop of vanish_process: the whole chain gets a new parent; `last` is its
      oldest member. */
  method Reparent(first: Process?, heir: Process, ghost chain: seq<Process>) returns (last: Process?)
    requires Chain(chain) && first == At(chain, 0)
    modifies chain`parent
    ensures last == At(chain, |chain| - 1)
    ensures forall q :: q in chain ==> q.parent == heir
  {
    last := null;
    var current := first;
    ghost var k := 0;
    while current != null
      invariant 0 <= k <= |chain| && current == At(chain, k) && last == At(chain, k - 1)
      invariant forall i :: 0 <= i < k ==> chain[i].parent == heir
      invariant Chain(chain)
      decreases |chain| - k
    {
      assert Sibling(chain, k);
      current.parent := heir;
      last := current;
      current := current.older;
      k := k + 1;
    }
  }

  /** The stores of the splice in vanish_process. */
  method SpliceStores(last: Process, first: Process, heir: Process)
    modifies last`older, heir`youngest, (if heir.youngest != null then {heir.youngest} else {})`younger
    ensures last.older == old(heir.youngest) && heir.youngest == first
    ensures old(heir.youngest) != null ==> old(heir.youngest).younger == last
  {
    last.older := heir.youngest;
    if heir.youngest != null {
      heir.youngest.younger := last;
    }
    heir.youngest := first;
  }

  /** The splice of vanish_process: the chain goes in front of the heir's. */
  method Splice(last: Process, first: Process, heir: Process, ghost chain: seq<Process>)
    requires chain != [] && first == chain[0] && last == chain[|chain| - 1]
    requires Chain(chain) && Chain(heir.kids) && heir.youngest == At(heir.kids, 0)
    requires forall q :: q in chain ==> q !in heir.kids
    requires heir !in chain && heir !in heir.kids
    modifies heir`youngest, heir`kids, last`older, heir.kids`younger
    ensures heir.kids == chain + old(heir.kids) && Chain(heir.kids) && heir.youngest == first
  {
    ConcatDistinct(chain, heir.kids);
    assert last in chain && last !in heir.kids;
    assert heir.kids != [] ==> heir.kids[0] in heir.kids && heir.kids[0] !in chain;
    SpliceStores(last, first, heir);
    ghost var rest := heir.kids;
    heir.kids := chain + rest;
    forall i | 0 <= i < |heir.kids|
      ensures Sibling(heir.kids, i)
    {
      if i < |chain| {
        assert heir.kids[i] == chain[i] && chain[i] in chain && old(Sibling(chain, i));
      } else {
        var j := i - |chain|;
        assert heir.kids[i] == rest[j] && rest[j] in rest && old(Sibling(heir.kids, j));
      }
    }
  }

  /** destroy_process: child `k` leaves the chain. */
  method Unlink(c: Process, parent: Process, ghost k: nat)
    requires Chain(parent.kids) && parent.youngest == At(parent.kids, 0) && k < |parent.kids| && parent.kids[k] == c
    requires parent !in parent.kids && parent.children > 0
    modifies parent`youngest, parent`children, parent`kids, parent.kids`older, parent.kids`younger
    ensures parent.kids == Without(old(parent.kids), c) && Chain(parent.kids)
    ensures parent.youngest == At(parent.kids, 0) && parent.children == old(parent.children) - 1
  {
    hide Without;
    ghost var chain := parent.kids;
    WithoutPlace(chain, k);
    ghost var shorter := chain[..k] + chain[k + 1..];
    assert Sibling(chain, k);
    assert k > 0 ==> Sibling(chain, k - 1);
    assert k + 1 < |chain| ==> Sibling(chain, k + 1);
    var older, younger := c.older, c.younger;
    if older != null {
      older.younger := younger;
    }
    if younger != null {
      younger.older := older;
    } else {
      parent.youngest := older;
    }
    parent.children := parent.children - 1;
    parent.kids := shorter;
    forall i | 0 <= i < |shorter|
      ensures Sibling(shorter, i)
    {
      if i < k {
        assert shorter[i] == chain[i] && old(Sibling(parent.kids, i));
      } else {
        assert shorter[i] == chain[i + 1] && old(Sibling(parent.kids, i + 1));
      }
    }
  }
  // ----- the process table -----

  ghost function Record(p: Process): L.Process<Process, Thread>
    reads p
  {
    var parent: Option<Process> := if p.parent == null then None else Some(p.parent);
    L.Process(p.pid, p.life, parent, p.kids, p.children, p.family, p.active, p.original, p.status)
  }

  ghost function Records(all: set<Process>): (r: map<Process, L.Process<Process, Thread>>)
    reads all
    ensures r.Keys == all && forall p :: p in all ==> r[p] == Record(p)
  {
    map p | p in all :: Record(p)
  }

  /** The links of process `p` agree with its chain. */
  ghost predicate Threaded(p: Process)
    reads p`kids, p`youngest, p`life, p.kids`older, p.kids`younger
  {
    Chain(p.kids) && (p.life.Alive? ==> p.youngest == At(p.kids, 0))
  }

  /** The kin of `p` are among `all`; a process without parent has no siblings. */
  ghost predicate Known(p: Process, all: set<Process>)
    reads p`kids, p`parent, p`older, p`younger
  {
    && (forall i :: 0 <= i < |p.kids| ==> p.kids[i] in all)
    && (if p.parent != null then p.parent in all else p.older == null && p.younger == null)
  }

  function ThreadAt(family: seq<Thread>, i: int): Thread? {
    if 0 <= i < |family| then family[i] else null
  }

  ghost predicate Mate(family: seq<Thread>, i: nat)
    requires i < |family|
    reads family`older, family`younger
  {
    family[i].older == ThreadAt(family, i + 1) && family[i].younger == ThreadAt(family, i - 1)
  }

  /** The threads of a process form a chain. */
  ghost predicate ThreadChain(family: seq<Thread>)
    reads family`older, family`younger
  {
    NoDuplicates(family) && forall i :: 0 <= i < |family| ==> Mate(family, i)
  }

  ghost predicate Crew(p: Process, threads: set<Thread>)
    reads p`family, p`youngestThread, threads`older, threads`younger
  {
    && (forall i :: 0 <= i < |p.family| ==> p.family[i] in threads && p.family[i].process == p)
    && ThreadChain(p.family)
    && p.youngestThread == ThreadAt(p.family, 0)
  }

  lemma NoThreadChain()
    ensures ThreadChain([])
  {
  }

  // ----- the thread chain -----

  /** The links of create_thread. */
  method LinkThread(p: Process, t: Thread)
    requires ThreadChain(p.family) && p.youngestThread == ThreadAt(p.family, 0) && t !in p.family
    requires t.older == null && t.younger == null
    modifies p`youngestThread, p`family, t`older, p.family`younger
    ensures p.family == [t] + old(p.family) && ThreadChain(p.family) && p.youngestThread == t
  {
    if p.youngestThread != null {
      t.older := p.youngestThread;
      p.youngestThread.younger := t;
    }
    p.youngestThread := t;
    ghost var chain := p.family;
    p.family := [t] + chain;
    forall i | 0 <= i < |p.family|
      ensures Mate(p.family, i)
    {
      assert i > 0 ==> p.family[i] == chain[i - 1] && old(Mate(p.family, i - 1));
    }
  }

  /** The links of destroy_thread. */
  method UnlinkThread(t: Thread, p: Process, ghost k: nat)
    requires ThreadChain(p.family) && p.youngestThread == ThreadAt(p.family, 0) && k < |p.family| && p.family[k] == t
    modifies p`youngestThread, p`family, p.family`older, p.family`younger
    ensures p.family == Without(old(p.family), t) && ThreadChain(p.family) && p.youngestThread == ThreadAt(p.family, 0)
  {
    hide Without;
    ghost var chain := p.family;
    WithoutPlace(chain, k);
    ghost var shorter := chain[..k] + chain[k + 1..];
    assert Mate(chain, k);
    assert k > 0 ==> Mate(chain, k - 1);
    assert k + 1 < |chain| ==> Mate(chain, k + 1);
    var older, younger := t.older, t.younger;
    if older != null {
      older.younger := t.younger;
    }
    if younger != null {
      younger.older := t.older;
    } else {
      p.youngestThread := t.older;
    }
    t.older := null;
    t.younger := null;
    p.family := shorter;
    forall i | 0 <= i < |shorter|
      ensures Mate(shorter, i)
    {
      if i < k {
        assert shorter[i] == chain[i] && old(Mate(p.family, i));
      } else {
        assert shorter[i] == chain[i + 1] && old(Mate(p.family, i + 1));
      }
    }
  }

  lemma LinkedIs(s: L.State<Process, Thread>, s': L.State<Process, Thread>, parent: Process, child: Process)
    requires parent in s.procs && child !in s.procs && s'.procs.Keys == s.procs.Keys + {child}
    requires s' == s.(procs := s'.procs, nextPid := s.nextPid + 1)
    requires s'.procs[child] == L.Process(s.nextPid, L.Alive, Some(parent), [], 0, [], 0, None, -1)
    requires var p := s.procs[parent];
      s'.procs[parent] == p.(kids := [child] + p.kids, children := p.children + 1)
    requires forall q :: q in s.procs && q != parent ==> s'.procs[q] == s.procs[q]
    ensures s' == L.Linked(s, parent, child)
  {
    assert s'.procs == L.Linked(s, parent, child).procs;
  }

  lemma OneIs(procs: map<Process, L.Process<Process, Thread>>, procs': map<Process, L.Process<Process, Thread>>, p: Process)
    requires p in procs && procs'.Keys == procs.Keys && forall q :: q in procs && q != p ==> procs'[q] == procs[q]
    ensures procs' == procs[p := procs'[p]]
  {
  }

  lemma StaffedIs(s: L.State<Process, Thread>, s': L.State<Process, Thread>, p: Process, t: Thread)
    requires p in s.procs && s'.procs.Keys == s.procs.Keys && s' == s.(procs := s'.procs)
    requires var x := s.procs[p];
      s'.procs[p] == x.(family := [t] + x.family, active := x.active + 1, original := if x.original.None? then Some(t) else x.original)
    requires forall q :: q in s.procs && q != p ==> s'.procs[q] == s.procs[q]
    ensures s' == L.Staffed(s, p, t).(owner := s.owner)
  {
    OneIs(s.procs, s'.procs, p);
  }

  lemma WithdrawnIs(s: L.State<Process, Thread>, s': L.State<Process, Thread>, t: Thread)
    requires t in s.owner && s.owner[t] in s.procs && s.procs[s.owner[t]].active > 0
    requires s'.procs.Keys == s.procs.Keys && s' == s.(procs := s'.procs)
    requires var x := s.procs[s.owner[t]];
      s'.procs[s.owner[t]] == x.(active := x.active - 1)
    requires forall q :: q in s.procs && q != s.owner[t] ==> s'.procs[q] == s.procs[q]
    ensures s'.(gone := s.gone + {t}) == L.Withdrawn(s, t)
  {
    OneIs(s.procs, s'.procs, s.owner[t]);
  }

  lemma ExitIs(s: L.State<Process, Thread>, s': L.State<Process, Thread>, p: Process)
    requires L.Forest(s) && p in s.procs && s.procs[p].life.Alive? && (p == s.init ==> s.procs[p].kids == [])
    requires s' == s.(procs := s'.procs) && s'.procs.Keys == s.procs.Keys
    requires p == s.init ==> s'.procs[p] == s.procs[p].(life := L.Exited) && forall q :: q in s.procs && q != p ==> s'.procs[q] == s.procs[q]
    requires p != s.init ==> var x, i := s.procs[p], s.procs[s.init];
      && s'.procs[p] == x.(life := L.Exited, kids := [])
      && s'.procs[s.init] == i.(kids := x.kids + i.kids, children := i.children + x.children)
      && (forall q :: q in s.procs && q in x.kids && q != p && q != s.init ==> s'.procs[q] == s.procs[q].(parent := Some(s.init)))
      && (forall q :: q in s.procs && q !in x.kids && q != p && q != s.init ==> s'.procs[q] == s.procs[q])
    ensures s' == L.Exit(s, p)
  {
    if p == s.init {
      assert L.KinOk(s, p);
      OneIs(s.procs, s'.procs, p);
    } else {
      L.ExitEffect(s, p);
      hide L.Exit;
      hide L.Forest;
      assert s'.procs == L.Exit(s, p).procs;
    }
  }

  /** Forgetting the threads of `c` does not touch the chains. */
  lemma NoThreads(s: L.State<Process, Thread>, s': L.State<Process, Thread>, c: Process)
    requires L.Forest(s) && c in s.procs && s'.procs.Keys == s.procs.Keys
    requires s' == s.(procs := s'.procs, owner := s'.owner)
    requires s'.procs[c] == s.procs[c].(family := [])
    requires forall q :: q in s.procs && q != c ==> s'.procs[q] == s.procs[q]
    ensures L.Forest(s')
  {
    forall q | q in s'.procs
      ensures L.KinOk(s', q)
    {
      assert L.KinOk(s, q);
    }
  }

  /** The threads of `c` are forgotten. */
  ghost function Unstaffed(s: L.State<Process, Thread>, c: Process): L.State<Process, Thread>
    requires c in s.procs
  {
    s.(procs := s.procs[c := s.procs[c].(family := [])], owner := s.owner - (set t | t in s.procs[c].family))
  }

  /** Process `c` has left its parent and the table. */
  ghost predicate Discarded(s: L.State<Process, Thread>, s': L.State<Process, Thread>, c: Process)
    requires c in s.procs
  {
    && s' == s.(procs := s'.procs, buried := s.buried + {c})
    && s'.procs.Keys == s.procs.Keys - {c}
    && (s.procs[c].parent.Some? ==>
          var p := s.procs[c].parent.value;
          p in s'.procs && p in s.procs && L.LostChild(s.procs[p], s'.procs[p], c))
    && (forall q :: q in s'.procs && Some(q) != s.procs[c].parent ==> s'.procs[q] == s.procs[q])
  }

  lemma BuriedIs(s: L.State<Process, Thread>, s': L.State<Process, Thread>, c: Process)
    requires L.Forest(s) && c in s.procs && s.procs[c].life.Exited? && Discarded(Unstaffed(s, c), s', c)
    ensures s' == L.Buried(s, c)
  {
    hide Without;
    hide L.Forest;
    hide L.Buried;
    L.BuriedEffect(s, c);
    var b := L.Buried(s, c);
    if s.procs[c].parent.Some? {
      var p := s.procs[c].parent.value;
      assert p != c && s'.procs[p] == b.procs[p];
    }
    hide L.LostChild;
    assert s'.procs == b.procs;
  }

  class Table {
    const init: Process
    var nextPid: nat
    /** All processes that have not been buried and their threads; the process of
        each thread in the thread table, the threads that have vanished and the
        buried processes. */
    ghost var all: set<Process>
    ghost var threads: set<Thread>
    ghost var owner: map<Thread, Process>
    ghost var gone: set<Thread>
    ghost var buried: set<Process>

    /** The sibling chains of the processes are in order. */
    ghost predicate Kin()
      reads this`all, all`kids, all`youngest, all`life, all`older, all`younger, all`parent
    {
      && init in all
      && (forall p {:trigger Known(p, all)} :: p in all ==> Known(p, all))
      && (forall p {:trigger Threaded(p)} :: p in all ==> Known(p, all) && Threaded(p))
    }

    /** The sibling chains of the threads are in order. */
    ghost predicate Crews()
      reads this`all, this`threads, all`family, all`youngestThread, threads`older, threads`younger
    {
      forall p {:trigger Crew(p, threads)} :: p in all ==> Crew(p, threads)
    }

    ghost predicate Valid()
      reads this`all, all`kids, all`youngest, all`life, all`older, all`younger, all`parent
      reads this`threads, all`family, all`youngestThread, threads`older, threads`younger
    {
      Kin() && Crews()
    }

    ghost function View(): (s: L.State<Process, Thread>)
      reads this, all
    {
      L.State(Records(all), init, owner, gone, buried, nextPid)
    }

    /** The kernel with its first process. */
    constructor (first: Process)
      requires first.parent == null && first.kids == [] && first.youngest == null && first.older == null && first.younger == null
      requires first.family == [] && first.youngestThread == null
      ensures Valid() && init == first && all == {first} && threads == {}
      ensures owner == map[] && gone == {} && buried == {} && nextPid == first.pid + 1
    {
      init, nextPid, all, threads := first, first.pid + 1, {first}, {};
      owner, gone, buried := map[], {}, {};
    }

    /** exited_child: the youngest child that has exited. */
    method ExitedChild(parent: Process) returns (r: Process?)
      requires Kin() && parent in all && parent.life.Alive?
      ensures parent.children == 0 ==> r == null
      ensures parent.children != 0 && r == null ==> L.FirstExited(View(), parent.kids) == None
      ensures r != null ==> r in all && L.FirstExited(View(), parent.kids) == Some(r)
    {
      hide Records;
      if parent.children == 0 {
        return null;
      }
      assert Threaded(parent) && Known(parent, all);
      ghost var kids, k := parent.kids, 0;
      assert kids[0..] == kids;
      r := parent.youngest;
      while r != null && !r.life.Exited?
        invariant 0 <= k <= |kids| && r == At(kids, k)
        invariant L.FirstExited(View(), kids) == L.FirstExited(View(), kids[k..])
        decreases |kids| - k
      {
        assert Sibling(kids, k) && kids[k] in all && kids[k..][1..] == kids[k + 1..];
        r := r.older;
        k := k + 1;
      }
    }

    /** The chain of `q` shares no process with the chain of `p`. */
    ghost predicate Apart(q: Process, p: Process)
      reads q`kids, p`kids
    {
      forall i :: 0 <= i < |q.kids| ==> q.kids[i] !in p.kids
    }

    lemma KidsOf(p: Process)
      requires Kin() && L.Forest(View()) && p in all
      ensures forall i :: 0 <= i < |p.kids| ==> p.kids[i].parent == p && p.kids[i] != p
      ensures p.life.Alive? ==> p.children == |p.kids|
      ensures init.parent == null
    {
      hide Records;
      L.InitIsRoot(View());
      assert L.KinOk(View(), p) && Known(p, all);
      forall i | 0 <= i < |p.kids|
        ensures p.kids[i].parent == p && p.kids[i] != p
      {
        assert p.kids[i] in p.kids && L.KinOk(View(), p.kids[i]);
      }
    }

    lemma OthersApart(p: Process)
      requires Kin() && L.Forest(View()) && p in all
      ensures forall q :: q in all && q != p ==> Apart(q, p)
    {
      hide Records;
      hide View;
      KidsOf(p);
      forall q | q in all && q != p
        ensures Apart(q, p)
      {
        KidsOf(q);
      }
    }

    /** The place of a child in its parent's chain. */
    lemma PlaceOf(c: Process) returns (k: nat)
      requires Kin() && L.Forest(View()) && c in all && c.parent != null
      ensures c.parent in all && k < |c.parent.kids| && c.parent.kids[k] == c && c.parent.life.Alive? && c.parent.children > 0
      ensures c.parent != c
    {
      hide Records;
      assert L.KinOk(View(), c) && Known(c, all);
      var p := c.parent;
      assert L.KinOk(View(), p);
      k :| 0 <= k < |p.kids| && p.kids[k] == c;
    }

    /** A process without children is nobody's parent, and in one chain at most. */
    lemma Childless(c: Process)
      requires Kin() && L.Forest(View()) && c in all && c.kids == []
      ensures forall q :: q in all ==> q.parent != c
      ensures forall q :: q in all && q != c.parent ==> c !in q.kids
    {
      hide Records;
      forall q | q in all
        ensures q.parent != c && (q != c.parent ==> c !in q.kids)
      {
        assert L.KinOk(View(), q) && Known(q, all);
      }
    }

    /** A process that has exited has no children. */
    lemma ChildHasExited(c: Process)
      requires Kin() && L.Forest(View()) && c in all && c.life.Exited?
      ensures c.kids == []
    {
      hide Records;
      assert L.KinOk(View(), c);
    }

    lemma ChildOf(c: Process, task: Process)
      requires Kin() && L.Forest(View()) && task in all && c in task.kids
      ensures c in all && c.parent == task && c != init
    {
      hide Records;
      assert L.KinOk(View(), task) && Known(task, all);
    }

    /** The family links of copy_process. */
    method Link(parent: Process, child: Process)
      requires Kin() && L.Forest(View()) && parent in all && parent.life.Alive? && child !in all
      requires child.life.Alive? && child.youngest == null && child.older == null && child.younger == null && child.kids == []
      modifies this`all, all`kids, all`youngest, all`children, all`younger, child`parent, child`older
      ensures Kin() && all == old(all) + {child}
      ensures child.parent == parent && parent.kids == [child] + old(parent.kids) && parent.children == old(parent.children) + 1
      ensures Record(parent) == old(Record(parent)).(kids := parent.kids, children := parent.children)
      ensures forall q :: q in old(all) && q != parent ==> Record(q) == old(Record(q))
    {
      hide View;
      hide L.Forest;
      hide Chain;
      KidsOf(parent);
      OthersApart(parent);
      assert Threaded(parent) && Known(parent, all);
      assert parent !in parent.kids && child !in parent.kids;
      LinkYoungest(parent, child);
      all := all + {child};
      forall q | q in all
        ensures Known(q, all) && Threaded(q)
      {
        assert q != child ==> old(Known(q, all));
        assert q != child && q != parent ==> old(Threaded(q)) && old(Apart(q, parent));
        NoChain();
      }
    }

    method CountPid()
      modifies this`nextPid
      requires Kin()
      ensures Kin() && nextPid == old(nextPid) + 1 && Records(all) == old(Records(all))
    {
      hide Kin;
      hide Records;
      nextPid := nextPid + 1;
    }

    method LinkView(parent: Process, child: Process)
      requires Kin() && L.Forest(View()) && parent in all && parent.life.Alive? && child !in all
      requires Record(child) == L.Process(nextPid, L.Alive, None, [], 0, [], 0, None, -1)
      requires child.youngest == null && child.older == null && child.younger == null
      modifies this`all, all`kids, all`youngest, all`children, all`younger, child`parent, child`older
      ensures Kin() && all == old(all) + {child}
      ensures View() == L.Linked(old(View()), parent, child).(nextPid := old(nextPid))
    {
      hide Records;
      hide L.Forest;
      hide L.Linked;
      hide Kin;
      ghost var s := View();
      Link(parent, child);
      LinkedIs(s, View().(nextPid := s.nextPid + 1), parent, child);
    }

    method Enrol(parent: Process, child: Process)
      requires Kin() && L.Forest(View()) && parent in all && parent.life.Alive? && child !in all
      requires Record(child) == L.Process(nextPid, L.Alive, None, [], 0, [], 0, None, -1)
      requires child.youngest == null && child.older == null && child.younger == null
      modifies this`all, this`nextPid, all`kids, all`youngest, all`children, all`younger, child`parent, child`older
      ensures Kin() && all == old(all) + {child}
      ensures View() == L.Linked(old(View()), parent, child)
    {
      hide Records;
      hide L.Forest;
      hide Kin;
      LinkView(parent, child);
      CountPid();
    }

    /** copy_process: a new process, the youngest child of `parent`. */
    method CopyProcess(parent: Process) returns (child: Process)
      requires Kin() && L.Forest(View()) && parent in all && parent.life.Alive?
      modifies this`all, this`nextPid, all`kids, all`youngest, all`children, all`younger
      ensures Kin() && fresh(child) && all == old(all) + {child} && child.family == [] && child.youngestThread == null
      ensures View() == L.Linked(old(View()), parent, child)
    {
      hide Records;
      hide L.Forest;
      hide L.Linked;
      hide Kin;
      child := new Process(nextPid);
      Enrol(parent, child);
    }

    // ----- threads of a process -----

    /** No two processes share a thread. */
    ghost predicate CrewsApart(q: Process, p: Process)
      reads q`family, p`family
    {
      forall i :: 0 <= i < |q.family| ==> q.family[i] !in p.family
    }

    lemma OthersCrews(p: Process)
      requires Crews() && p in all
      ensures forall q :: q in all && q != p ==> CrewsApart(q, p)
    {
      forall q | q in all && q != p
        ensures CrewsApart(q, p)
      {
        assert Crew(q, threads) && Crew(p, threads);
      }
    }

    /** The thread joins the chain of its process. */
    method Join(p: Process, t: Thread)
      requires Valid() && p in all && t !in threads && t.process == p && t.older == null && t.younger == null
      modifies this`threads, p`youngestThread, p`family, t`older, p.family`younger
      ensures Valid() && threads == old(threads) + {t}
      ensures p.family == [t] + old(p.family)
    {
      hide Kin;
      hide ThreadChain;
      OthersCrews(p);
      assert Crew(p, threads);
      LinkThread(p, t);
      threads := threads + {t};
      forall q | q in all
        ensures Crew(q, threads)
      {
        assert old(Crew(q, threads));
        assert q != p ==> old(CrewsApart(q, p));
      }
    }

    /** create_thread up to the lock: the thread is in the books of the process. */
    method AddThread(p: Process, t: Thread)
      requires Valid() && p in all && t !in threads && t.process == p && t.older == null && t.younger == null
      modifies this`threads, p`youngestThread, p`family, p`active, p`original, t`older, p.family`younger
      ensures Valid() && threads == old(threads) + {t}
      ensures var x := old(Record(p));
        Record(p) == x.(family := [t] + x.family, active := x.active + 1, original := if x.original.None? then Some(t) else x.original)
      ensures forall q :: q in all && q != p ==> Record(q) == old(Record(q))
    {
      hide Kin;
      hide Crews;
      p.active := p.active + 1;
      if p.original.None? {
        p.original := Some(t);
      }
      Join(p, t);
    }

    /** destroy_thread: the thread leaves its process. */
    method DestroyThread(t: Thread, p: Process)
      requires Valid() && p in all && p.family != [] && t == p.family[0]
      modifies p`youngestThread, p`family, p.family`older, p.family`younger
      ensures Valid() && p.family == old(p.family)[1..]
      ensures Record(p) == old(Record(p)).(family := p.family)
      ensures forall q :: q in all && q != p ==> Record(q) == old(Record(q))
    {
      hide Kin;
      hide ThreadChain;
      OthersCrews(p);
      assert Crew(p, threads);
      UnlinkThread(t, p, 0);
      forall q | q in all
        ensures Crew(q, threads)
      {
        assert old(Crew(q, threads));
        assert q != p ==> old(CrewsApart(q, p));
      }
    }

    ghost method Register(t: Thread, p: Process)
      requires Valid()
      modifies this`owner
      ensures Valid() && View() == old(View()).(owner := old(owner)[t := p])
    {
      hide Kin;
      hide Crews;
      hide Records;
      owner := owner[t := p];
    }

    /** create_thread: `lock` says whether the thread gets its lock. */
    method CreateThread(p: Process, tid: nat, memory: bool, lock: bool) returns (r: L.Outcome<Thread>, ghost birth: L.Birth<Thread>)
      requires Valid() && p in all
      modifies this`threads, this`owner, p`youngestThread, p`family, p`active, p`original, p.family`younger
      ensures Valid() && (View(), r) == L.ThreadStep(old(View()), p, birth)
      ensures birth.NoMemory? <==> !memory
      ensures birth.NoLock? ==> !lock && fresh(birth.unborn) && birth.unborn.tid == tid
      ensures birth.Made? ==> lock && fresh(birth.thread) && birth.thread.tid == tid
    {
      hide Records;
      hide Kin;
      hide Crews;
      if !memory {
        return L.NoThread, L.NoMemory;
      }
      ghost var s := View();
      var t := new Thread(tid, p);
      Enter(p, t);
      if !lock {
        return L.NoThread, L.NoLock(t);
      }
      Register(t, p);
      return L.Done, L.Made(t);
    }

    method Enter(p: Process, t: Thread)
      requires Valid() && p in all && t !in threads && t.process == p && t.older == null && t.younger == null
      modifies this`threads, p`youngestThread, p`family, p`active, p`original, t`older, p.family`younger
      ensures Valid() && threads == old(threads) + {t}
      ensures View() == L.Staffed(old(View()), p, t).(owner := old(owner))
    {
      hide Records;
      hide Kin;
      hide Crews;
      hide L.Staffed;
      ghost var s := View();
      AddThread(p, t);
      StaffedIs(s, View(), p, t);
    }

    // ----- the end of a thread and of a process -----

    /** The count kept by vanish_thread. */
    method Lower(p: Process)
      requires Valid() && p in all && p.active > 0
      modifies p`active
      ensures Valid()
      ensures Record(p) == old(Record(p)).(active := old(p.active) - 1)
      ensures forall q :: q in all && q != p ==> Record(q) == old(Record(q))
    {
      hide Kin;
      hide Crews;
      p.active := p.active - 1;
    }

    ghost method MarkGone(t: Thread)
      requires Valid()
      modifies this`gone
      ensures Valid() && View() == old(View()).(gone := old(gone) + {t})
    {
      hide Kin;
      hide Crews;
      hide Records;
      gone := gone + {t};
    }

    /** The books of vanish_thread. */
    method VanishThread(p: Process, t: Thread)
      requires Valid() && p in all && p.active > 0 && t in owner && owner[t] == p
      modifies this`gone, p`active
      ensures Valid() && View() == L.Withdrawn(old(View()), t)
    {
      hide Records;
      hide Kin;
      hide Crews;
      hide L.Withdrawn;
      ghost var s := View();
      Lower(p);
      ghost var s1 := View();
      MarkGone(t);
      WithdrawnIs(s, s1, t);
    }

    /** What init and the chain of `p` must be like for init to adopt it. */
    lemma Adoptable(p: Process)
      requires Kin() && L.Forest(View()) && p in all && p.life.Alive? && init.life.Alive?
      ensures p.children == |p.kids| && p !in p.kids
      ensures init !in p.kids && init !in init.kids
      ensures p != init ==> forall q :: q in p.kids ==> q !in init.kids
    {
      hide View;
      KidsOf(p);
      KidsOf(init);
    }

    /** The stores of the adoption in vanish_process, and its end. */
    method MoveChain(p: Process)
      requires p != init && p.kids != [] && Chain(p.kids) && Chain(init.kids)
      requires p.youngest == At(p.kids, 0) && init.youngest == At(init.kids, 0)
      requires p !in p.kids && init !in p.kids && init !in init.kids
      requires forall q :: q in p.kids ==> q !in init.kids
      modifies p`life, p`kids, init`children, init`youngest, init`kids, p.kids`parent, p.kids`older, init.kids`younger
      ensures p.life == L.Exited && p.kids == [] && Chain(init.kids) && init.youngest == At(init.kids, 0)
      ensures init.kids == old(p.kids) + old(init.kids) && init.children == old(init.children) + old(p.children)
      ensures forall q :: q in old(p.kids) ==> q.parent == init
    {
      hide Chain;
      ghost var chain := p.kids;
      init.children := init.children + p.children;
      var last := Reparent(p.youngest, init, chain);
      Splice(last, p.youngest, init, chain);
      p.life := L.Exited;
      p.kids := [];
    }

    /** The adoption in vanish_process, and its end. */
    method Adopt(p: Process)
      requires Kin() && L.Forest(View()) && p in all && p != init && p.life.Alive? && init.life.Alive? && p.kids != []
      modifies p`life, p`kids, init`children, init`youngest, init`kids, p.kids`parent, p.kids`older, init.kids`younger
      ensures Kin()
      ensures Record(p) == old(Record(p)).(life := L.Exited, kids := [])
      ensures init.kids == old(p.kids) + old(init.kids) && init.children == old(init.children) + old(p.children)
      ensures Record(init) == old(Record(init)).(kids := init.kids, children := init.children)
      ensures forall q :: q in all && q != p && q != init && q in old(p.kids) ==> Record(q) == old(Record(q)).(parent := Some(init))
      ensures forall q :: q in all && q != p && q != init && q !in old(p.kids) ==> Record(q) == old(Record(q))
    {
      hide View;
      hide Chain;
      hide L.Forest;
      Adoptable(p);
      KidsOf(p);
      KidsOf(init);
      OthersApart(p);
      OthersApart(init);
      assert Threaded(p) && Threaded(init) && Known(p, all) && Known(init, all);
      MoveChain(p);
      NoChain();
      forall q | q in all
        ensures Known(q, all) && Threaded(q)
      {
        assert old(Known(q, all));
        assert q != p && q != init ==> old(Threaded(q)) && old(Apart(q, p)) && old(Apart(q, init));
      }
    }

    /** The chain has become a ring, which no walk leaves. */
    ghost predicate Ring(chain: seq<Process>)
      reads chain`older
    {
      && chain != [] && chain[|chain| - 1].older == chain[0]
      && forall i :: 0 <= i < |chain| - 1 ==> chain[i].older == chain[i + 1]
    }

    /** The same stores if init exits while it has children: its count doubles and
        its chain becomes a ring. */
    method InitAdoptsItself()
      requires Chain(init.kids) && init.youngest == At(init.kids, 0) && init.kids != [] && init !in init.kids
      modifies init`life, init`children, init`youngest, init.kids`parent, init.kids`older, init.kids`younger
      ensures init.life == L.Exited && init.children == 2 * old(init.children) && init.youngest == init.kids[0]
      ensures Ring(init.kids)
    {
      ghost var chain := init.kids;
      init.children := init.children + init.children;
      var last := Reparent(init.youngest, init, chain);
      forall i | 0 <= i < |chain| - 1
        ensures chain[i].older == chain[i + 1] && chain[i] != last
      {
        assert Sibling(chain, i);
      }
      SpliceStores(last, init.youngest, init);
      init.life := L.Exited;
    }

    method EndChildless(p: Process)
      requires Kin() && p in all && p.kids == []
      modifies p`life
      ensures Kin()
      ensures Record(p) == old(Record(p)).(life := L.Exited)
      ensures forall q :: q in all && q != p ==> Record(q) == old(Record(q))
    {
      hide Chain;
      p.life := L.Exited;
      forall q | q in all
        ensures Known(q, all) && Threaded(q)
      {
        assert old(Known(q, all)) && old(Threaded(q));
      }
    }

    method Retire(p: Process)
      requires Valid() && L.Forest(View()) && p in all && p.life.Alive? && init.life.Alive? && (p == init ==> p.kids == [])
      modifies p`life, p`kids, init`children, init`youngest, init`kids, p.kids`parent, p.kids`older, init.kids`younger
      ensures Valid() && View() == L.Exit(old(View()), p)
    {
      hide Records;
      hide L.Forest;
      hide L.Exit;
      hide Crews;
      Adoptable(p);
      hide Kin;
      if p.children > 0 {
        RetireParent(p);
      } else {
        RetireChildless(p);
      }
    }

    method RetireParent(p: Process)
      requires Valid() && L.Forest(View()) && p in all && p != init && p.life.Alive? && init.life.Alive? && p.kids != []
      modifies p`life, p`kids, init`children, init`youngest, init`kids, p.kids`parent, p.kids`older, init.kids`younger
      ensures Valid() && View() == L.Exit(old(View()), p)
    {
      hide Records;
      hide L.Forest;
      hide L.Exit;
      hide Crews;
      assert init in all;
      hide Kin;
      ghost var s := View();
      Adopt(p);
      ExitIs(s, View(), p);
    }

    method RetireChildless(p: Process)
      requires Valid() && L.Forest(View()) && p in all && p.life.Alive? && p.kids == [] && p.children == 0
      modifies p`life
      ensures Valid() && View() == L.Exit(old(View()), p)
    {
      hide Records;
      hide L.Forest;
      hide L.Exit;
      hide Crews;
      assert init in all;
      hide Kin;
      ghost var s := View();
      assert [] + init.kids == init.kids;
      EndChildless(p);
      ExitIs(s, View(), p);
    }

    /** vanish_process: refused while threads are active.  Everything stays in order
        unless it is init that exits with children. */
    method VanishProcess(p: Process) returns (ok: bool)
      requires Valid() && L.Forest(View()) && p in all && p.life.Alive? && init.life.Alive?
      modifies p`life, p`kids, init`children, init`youngest, init`kids
      modifies p.kids`parent, p.kids`older, p.kids`younger, init.kids`younger
      ensures ok == (old(p.active) == 0)
      ensures p != init || !ok || old(p.kids) == [] ==> Valid() && View() == if ok then L.Exit(old(View()), p) else old(View())
      ensures p == init && ok && old(p.kids) != [] ==>
        p.life == L.Exited && p.children == 2 * old(p.children) && p.kids == old(p.kids) && Ring(p.kids)
    {
      hide View;
      hide L.Forest;
      hide L.Exit;
      hide Crews;
      hide Ring;
      if p.active > 0 {
        return false;
      }
      Adoptable(p);
      if p == init && p.children > 0 {
        assert Threaded(init);
        InitAdoptsItself();
      } else {
        Retire(p);
      }
      return true;
    }

    /** The loop of destroy_process over the threads, youngest first. */
    method DestroyThreads(c: Process)
      requires Valid() && c in all
      modifies this`owner, c`youngestThread, c`family, c.family`older, c.family`younger
      ensures Valid() && c.family == [] && owner == old(owner) - (set t | t in old(c.family))
      ensures forall q :: q in all && q != c ==> Record(q) == old(Record(q))
      ensures Record(c) == old(Record(c)).(family := [])
    {
      hide Kin;
      hide Crews;
      ghost var k := 0;
      FirstThread(c);
      while c.youngestThread != null
        invariant Valid() && 0 <= k <= |old(c.family)| && c.family == old(c.family)[k..]
        invariant c.youngestThread == ThreadAt(c.family, 0)
        invariant owner == old(owner) - (set t | t in old(c.family)[..k])
        invariant forall q :: q in all && q != c ==> Record(q) == old(Record(q))
        invariant Record(c) == old(Record(c)).(family := c.family)
        decreases |c.family|
      {
        assert old(c.family)[..k + 1] == old(c.family)[..k] + [c.family[0]];
        assert forall i :: 0 <= i < |c.family| ==> c.family[i] == old(c.family)[k + i];
        owner := owner - {c.family[0]};
        DestroyThread(c.youngestThread, c);
        FirstThread(c);
        k := k + 1;
      }
      assert old(c.family)[..k] == old(c.family);
    }

    lemma FirstThread(c: Process)
      requires Crews() && c in all
      ensures c.youngestThread == ThreadAt(c.family, 0)
    {
      assert Crew(c, threads);
    }

    /** The sibling links of destroy_process. */
    method LeaveChain(c: Process)
      requires Kin() && L.Forest(View()) && c in all && c.kids == [] && c.parent != null
      modifies all`kids, all`youngest, all`children, all`older, all`younger
      ensures forall q :: q in all && q != c ==> Known(q, all - {c}) && Threaded(q)
      ensures c.parent in all - {c} && L.LostChild(old(Record(c.parent)), Record(c.parent), c)
      ensures forall q :: q in all && q != c.parent ==> Record(q) == old(Record(q))
    {
      hide View;
      hide Chain;
      hide Without;
      hide L.Forest;
      var p := c.parent;
      Childless(c);
      ghost var k := PlaceOf(c);
      KidsOf(p);
      OthersApart(p);
      assert Threaded(p) && Known(p, all) && p !in p.kids;
      Rest(p.kids, k);
      Unlink(c, p, k);
      forall q | q in all && q != c
        ensures Known(q, all - {c}) && Threaded(q)
      {
        assert old(Known(q, all)) && old(Threaded(q));
        assert q != p ==> old(Apart(q, p));
      }
    }

    ghost method Bury(c: Process)
      requires init in all && c != init && c in all && Crews()
      requires forall q :: q in all && q != c ==> Known(q, all - {c}) && Threaded(q)
      modifies this`all, this`buried
      ensures Valid() && all == old(all) - {c} && buried == old(buried) + {c}
    {
      hide Chain;
      hide ThreadChain;
      all := all - {c};
      buried := buried + {c};
      forall p | p in all
        ensures Crew(p, threads)
      {
        assert old(Crew(p, threads));
      }
    }

    /** A process without parent and children is in no chain. */
    lemma RootAlone(c: Process)
      requires Kin() && L.Forest(View()) && c in all && c.kids == [] && c.parent == null
      ensures forall q :: q in all && q != c ==> Known(q, all - {c}) && Threaded(q)
    {
      hide View;
      hide L.Forest;
      Childless(c);
      forall q | q in all && q != c
        ensures Known(q, all - {c}) && Threaded(q)
      {
        assert Known(q, all) && Threaded(q) && c !in q.kids;
      }
    }

    /** The process leaves its siblings and the table. */
    method Drop(c: Process)
      requires Valid() && L.Forest(View()) && c in all && c.kids == [] && c != init
      modifies this`all, this`buried, all`kids, all`youngest, all`children, all`older, all`younger
      ensures Valid() && all == old(all) - {c} && buried == old(buried) + {c}
      ensures old(c.parent) != null ==> old(c.parent) in all && L.LostChild(old(Record(c.parent)), Record(old(c.parent)), c)
      ensures forall q :: q in all && q != old(c.parent) ==> Record(q) == old(Record(q))
    {
      hide View;
      hide Crews;
      hide Threaded;
      hide L.Forest;
      hide L.LostChild;
      if c.parent != null {
        LeaveChain(c);
      } else {
        RootAlone(c);
      }
      Bury(c);
    }

    method ForgetThreads(c: Process)
      requires Valid() && L.Forest(View()) && c in all
      modifies this`owner, c`youngestThread, c`family, c.family`older, c.family`younger
      ensures Valid() && L.Forest(View())
      ensures View() == Unstaffed(old(View()), c)
    {
      hide Records;
      hide L.Forest;
      hide Crews;
      hide Kin;
      ghost var s := View();
      DestroyThreads(c);
      OneIs(s.procs, View().procs, c);
      NoThreads(s, View(), c);
    }

    method Discard(c: Process)
      requires Valid() && L.Forest(View()) && c in all && c.kids == [] && c != init
      modifies this`all, this`buried, all`kids, all`youngest, all`children, all`older, all`younger
      ensures Valid() && Discarded(old(View()), View(), c)
    {
      hide Records;
      hide L.Forest;
      hide Crews;
      hide Kin;
      hide L.LostChild;
      Drop(c);
    }

    /** destroy_process: refused unless the process has exited. */
    method DestroyProcess(c: Process) returns (ok: bool)
      requires Valid() && L.Forest(View()) && c in all && (c == init ==> c.life.Alive?)
      modifies this`all, this`buried, this`owner, all`kids, all`youngest, all`children, all`older, all`younger
      modifies c`youngestThread, c`family, c.family`older, c.family`younger
      ensures Valid() && ok == old(c.life).Exited?
      ensures View() == if ok then L.Buried(old(View()), c) else old(View())
    {
      hide Crews;
      hide Kin;
      hide Discarded;
      hide L.Buried;
      if !c.life.Exited? {
        return false;
      }
      ChildHasExited(c);
      assert c in View().procs && View().procs[c].life.Exited?;
      ghost var s := View();
      hide View;
      hide L.Forest;
      ForgetThreads(c);
      Discard(c);
      BuriedIs(s, View(), c);
      return true;
    }

    // ----- the calls -----

    /** The loop of wait: collect a child, go to sleep, or give up. */
    method Collect(task: Process) returns (r: L.Outcome<Thread>)
      requires Valid() && L.Forest(View()) && task in all && task.life.Alive?
      modifies this`all, this`buried, this`owner, all`kids, all`youngest, all`children, all`older, all`younger
      modifies all`youngestThread, all`family, threads`older, threads`younger
      ensures Valid() && (View(), r) == L.ResumeStep(old(View()), task)
    {
      hide Records;
      hide Kin;
      hide Crews;
      hide L.Buried;
      hide L.FirstExited;
      if task.children == 0 {
        return L.ChildrenGone;
      }
      var child := ExitedChild(task);
      if child == null {
        return L.MustWait;
      }
      ChildOf(child, task);
      var tid, status := child.original, child.status;
      if tid.None? {
        return L.NoOriginal;
      }
      hide L.Forest;
      KnownThreads(child);
      var ok := DestroyProcess(child);
      return L.Collected(tid.value, status);
    }

    lemma KnownThreads(p: Process)
      requires Crews() && p in all
      ensures forall i :: 0 <= i < |p.family| ==> p.family[i] in threads
    {
      assert Crew(p, threads);
    }

    /** wait, up to the first time the caller has to sleep. */
    method Wait(task: Process, waiters: nat) returns (r: L.Outcome<Thread>)
      requires Valid() && L.Forest(View()) && task in all && task.life.Alive?
      modifies this`all, this`buried, this`owner, all`kids, all`youngest, all`children, all`older, all`younger
      modifies all`youngestThread, all`family, threads`older, threads`younger
      ensures Valid() && (View(), r) == L.WaitStep(old(View()), task, waiters)
    {
      hide Records;
      hide Kin;
      hide Crews;
      hide L.Forest;
      hide L.ResumeStep;
      if task.children == 0 {
        return L.NoChildren;
      }
      if task.children <= waiters {
        return L.WaitFull;
      }
      r := Collect(task);
    }

    /** copy_process, with the thread chains in view. */
    method Copy(parent: Process) returns (child: Process)
      requires Valid() && L.Forest(View()) && parent in all && parent.life.Alive?
      modifies this`all, this`nextPid, all`kids, all`youngest, all`children, all`younger
      ensures Valid() && fresh(child) && all == old(all) + {child} && child.family == []
      ensures View() == L.Linked(old(View()), parent, child)
    {
      hide View;
      hide Kin;
      hide ThreadChain;
      hide L.Forest;
      hide L.Linked;
      child := CopyProcess(parent);
      NoThreadChain();
      forall p | p in all
        ensures Crew(p, threads)
      {
        assert p != child ==> old(Crew(p, threads));
      }
    }

    /** The youngest thread of a process. */
    method Youngest(p: Process) returns (t: Thread)
      requires Valid() && p in all && p.family != []
      ensures t == p.family[0]
    {
      assert Crew(p, threads);
      return p.youngestThread;
    }

    /** fork: the new process, and its thread unless that cannot be had. */
    method Fork(parent: Process, copied: bool, tid: nat, memory: bool, lock: bool)
      returns (child: Process?, r: L.Outcome<Thread>, ghost birth: L.Birth<Thread>)
      requires Valid() && L.Forest(View()) && parent in all && parent.life.Alive?
      modifies this`all, this`nextPid, this`threads, this`owner, all`kids, all`youngest, all`children, all`younger
      ensures Valid() && (child == null <==> old(parent.active) > 1 || !copied)
      ensures child == null ==> View() == old(View()) && r == if old(parent.active) > 1 then L.MultipleThreads else L.NoCopy
      ensures child != null ==> fresh(child) && (View(), r) == L.ForkStep(old(View()), parent, child, copied, birth)
      ensures child != null ==> (birth.NoMemory? <==> !memory) && (birth.NoLock? ==> !lock) && (birth.Made? ==> lock)
      ensures birth.Made? ==> fresh(birth.thread)
    {
      hide Records;
      hide Kin;
      hide Crews;
      hide L.Linked;
      hide L.ThreadStep;
      if parent.active > 1 {
        return null, L.MultipleThreads, L.NoMemory;
      }
      if !copied {
        return null, L.NoCopy, L.NoMemory;
      }
      var made := Copy(parent);
      ghost var b;
      r, b := CreateThread(made, tid, memory, lock);
      return made, r, b;
    }

    /** thread_fork */
    method ThreadFork(caller: Process, tid: nat, memory: bool, lock: bool) returns (r: L.Outcome<Thread>, ghost birth: L.Birth<Thread>)
      requires Valid() && caller in all
      modifies this`threads, this`owner, caller`youngestThread, caller`family, caller`active, caller`original, caller.family`younger
      ensures Valid() && (View(), r) == L.ThreadStep(old(View()), caller, birth)
      ensures (birth.NoMemory? <==> !memory) && (birth.NoLock? ==> !lock) && (birth.Made? ==> lock)
    {
      r, birth := CreateThread(caller, tid, memory, lock);
    }

    method SetStatus(p: Process, status: int)
      requires Valid() && p in all
      modifies p`status
      ensures Valid() && View() == L.StatusStep(old(View()), p, status)
    {
      hide Records;
      hide Kin;
      hide Crews;
      ghost var s := View();
      p.status := status;
      assert Record(p) == old(Record(p)).(status := status);
      assert forall q :: q in all && q != p ==> Record(q) == old(Record(q));
      OneIs(s.procs, View().procs, p);
    }

    /** vanish: the thread, and with the last thread the process.  Everything stays
        in order unless it is the last thread of init and init has children. */
    method Vanish(p: Process, t: Thread)
      requires Valid() && L.Forest(View()) && init.life.Alive? && p in all && L.Legal(View(), L.Vanish(t)) && owner[t] == p
      requires L.Booked(View(), p) && t in p.family
      modifies this`gone, p`active, p`life, p`kids, init`children, init`youngest, init`kids
      modifies p.kids`parent, p.kids`older, p.kids`younger, init.kids`younger
      ensures p != init || old(p.active) > 1 || old(p.kids) == [] ==> Valid() && View() == L.VanishStep(old(View()), t)
      ensures p == init && old(p.active) == 1 && old(p.kids) != [] ==>
        p.life == L.Exited && p.children == 2 * old(p.children) && p.kids == old(p.kids) && Ring(p.kids)
    {
      hide Records;
      hide L.Exit;
      hide Kin;
      hide Crews;
      hide Ring;
      ghost var s := View();
      hide L.Forest;
      L.BookedActive(s, p, t);
      L.WithdrawnForest(s, t);
      VanishThread(p, t);
      if p.active == 0 {
        var ok := VanishProcess(p);
      }
    }
  }

  /** The first process, without a thread. */
  function NoThreadYet(first: Process): L.State<Process, Thread> {
    var procs: map<Process, L.Process<Process, Thread>> := map[first := L.Process(1, L.Alive, None, [], 0, [], 0, None, -1)];
    L.State(procs, first, map[], {}, {}, 2)
  }

  method FirstProcess() returns (tab: Table)
    ensures fresh(tab) && fresh(tab.init) && tab.Valid() && tab.all == {tab.init} && tab.init.family == []
    ensures tab.View() == NoThreadYet(tab.init)
  {
    hide Table.Kin;
    hide Table.Crews;
    var first := new Process(1);
    tab := new Table(first);
    assert tab.View().procs == NoThreadYet(first).procs;
  }

  /** The kernel at boot: the first process with its first thread. */
  method Start() returns (tab: Table, t: Thread)
    ensures fresh(tab) && fresh(tab.init) && fresh(t)
    ensures tab.Valid() && tab.View() == R.Boot(tab.init, t) && L.Forest(tab.View())
    ensures tab.all == {tab.init} && tab.init.family == [t] && tab.init.life.Alive? && tab.init.active == 1
  {
    hide Table.Kin;
    hide Table.Crews;
    hide L.ThreadStep;
    hide L.Forest;
    hide R.Boot;
    tab := FirstProcess();
    var r, birth := tab.CreateThread(tab.init, 1, true, true);
    FirstThreadIs(tab.View(), tab.init, birth.thread);
    t := tab.Youngest(tab.init);
  }

  lemma FirstThreadIs(s: L.State<Process, Thread>, first: Process, t: Thread)
    requires s == L.ThreadStep(NoThreadYet(first), first, L.Made(t)).0
    ensures s == R.Boot(first, t) && L.Forest(s) && first in s.procs
    ensures var x := s.procs[first];
      x.family == [t] && x.life.Alive? && x.active == 1
  {
    R.BootInv(first, t);
    assert [t] + [] == [t];
    assert s.procs == R.Boot(first, t).procs;
  }

  /** After the first fork the only thread of the first process can vanish. */
  lemma ForkedState(s: L.State<Process, Thread>, first: Process, t: Thread, child: Process, u: Thread)
    requires child != first && t != u && s == L.ForkStep(R.Boot(first, t), first, child, true, L.Made(u)).0
    ensures L.Forest(s) && first in s.procs && L.Booked(s, first) && L.Legal(s, L.Vanish(t)) && s.owner[t] == first
    ensures var x := s.procs[first];
      x.life.Alive? && x.kids == [child] && x.children == 1 && x.family == [t] && x.active == 1
  {
    R.ForkedChild(first, t, child, u);
    R.InvSturdy(s);
    assert [child] + [] == [child];
  }

  /** The first process forks a child and exits: its chain has become a ring. */
  method ForkAndExit() returns (tab: Table)
    ensures tab.init.life == L.Exited && tab.init.kids != [] && tab.init.children == 2 * |tab.init.kids| && tab.Ring(tab.init.kids)
  {
    hide Table.Kin;
    hide Table.Crews;
    hide Table.Ring;
    hide L.Forest;
    hide L.Booked;
    hide L.Legal;
    hide L.ForkStep;
    hide L.VanishStep;
    hide R.Boot;
    var t;
    tab, t := Start();
    var child, r, birth := tab.Fork(tab.init, true, 2, true, true);
    ForkedState(tab.View(), tab.init, t, child, birth.thread);
    tab.Vanish(tab.init, t);
  }
}

/** The scheduler as the kernel keeps it: control blocks on embedded lists, updated
    in place by the setters, the system calls and the timer.  Each is proved
    against its function in `Scheduler`. */
module SchedulerCalls {
  import opened Collections
  import opened ThreadList
  import S = Scheduler
  import R = SchedulerRuns
  import ThreadHash

  ghost function TcbOf(t: Thread): S.Tcb<List>
    reads t
  {
    var list: Option<List> := if t.list == null then None else Some(t.list);
    S.Tcb(t.state, t.wake, list)
  }

  ghost function Blocks(threads: set<Thread>): (r: map<Thread, S.Tcb<List>>)
    reads threads
    ensures r.Keys == threads && forall t :: t in threads ==> r[t] == TcbOf(t)
  {
    map t | t in threads :: TcbOf(t)
  }

  ghost function Queues(lists: set<List>): (r: map<List, seq<Thread>>)
    reads lists
    ensures r.Keys == lists && forall l :: l in lists ==> r[l] == l.nodes
  {
    map l | l in lists :: l.nodes
  }

  ghost function Homes(threads: set<Thread>): (r: map<Thread, List>)
    ensures r.Keys == threads && forall t :: t in threads ==> r[t] == t.home
  {
    map t | t in threads :: t.home
  }

  /** A state that differs from `s` as unset_state makes it differ. */
  lemma UnsetIs(s: S.State<Thread, List>, s': S.State<Thread, List>, t: Thread)
    requires t in s.tcb && s'.tcb.Keys == s.tcb.Keys && s'.queue.Keys == s.queue.Keys
    requires s' == s.(tcb := s'.tcb, queue := s'.queue)
    requires s'.tcb[t] == s.tcb[t].(tag := Zombie, list := None)
    requires forall x :: x in s.tcb && x != t ==> s'.tcb[x] == s.tcb[x]
    requires s.tcb[t].list.Some? ==> s.tcb[t].list.value in s.queue
    requires forall m :: m in s.queue ==> s'.queue[m] == if Some(m) == s.tcb[t].list then Without(s.queue[m], t) else s.queue[m]
    ensures s' == S.Unset(s, t)
  {
    hide Without;
    var u := S.Unset(s, t);
    assert s'.tcb == u.tcb;
    assert s'.queue == u.queue;
  }

  lemma PlaceIs(s: S.State<Thread, List>, s': S.State<Thread, List>, t: Thread, l: List, q: seq<Thread>, tag: Tag)
    requires t in s.tcb && l in s.queue && s'.tcb.Keys == s.tcb.Keys && s'.queue.Keys == s.queue.Keys
    requires s' == s.(tcb := s'.tcb, queue := s'.queue)
    requires s'.tcb[t] == s.tcb[t].(tag := tag, list := Some(l))
    requires forall x :: x in s.tcb && x != t ==> s'.tcb[x] == s.tcb[x]
    requires forall m :: m in s.queue ==> s'.queue[m] == if m == l then q else s.queue[m]
    ensures s' == S.Place(s, t, l, q, tag)
  {
    var p := S.Place(s, t, l, q, tag);
    assert s'.tcb == p.tcb;
    assert s'.queue == p.queue;
  }

  lemma BlockIs(s: S.State<Thread, List>, s': S.State<Thread, List>, t: Thread, e: S.Tcb<List>)
    requires t in s.tcb && s'.tcb.Keys == s.tcb.Keys && s'.queue.Keys == s.queue.Keys
    requires s' == s.(tcb := s'.tcb, queue := s'.queue)
    requires s'.tcb[t] == e
    requires forall x :: x in s.tcb && x != t ==> s'.tcb[x] == s.tcb[x]
    requires forall m :: m in s.queue ==> s'.queue[m] == s.queue[m]
    ensures s' == s.(tcb := s.tcb[t := e])
  {
    assert s'.tcb == s.tcb[t := e];
    assert s'.queue == s.queue;
  }

  lemma CreatedIs(s: S.State<Thread, List>, self: Thread, idle: Thread, running: List, sleeping: List, waiting: List)
    requires running != sleeping && running != waiting && sleeping != waiting && self != idle
    requires s.tcb.Keys == {self, idle} && s.home.Keys == {self, idle} && s.queue.Keys == {running, sleeping, waiting}
    requires s.tcb[self] == S.Tcb(Zombie, 0, None) && s.tcb[idle] == S.Tcb(Zombie, 0, None)
    requires s.home[self] == waiting && s.home[idle] == waiting
    requires s.queue[running] == [] && s.queue[sleeping] == [] && s.queue[waiting] == []
    requires s == S.State(s.tcb, s.queue, running, sleeping, s.home, 0, self, idle, {})
    ensures s == R.Created(self, idle, running, sleeping, waiting)
  {
    var b := R.Created(self, idle, running, sleeping, waiting);
    assert s.tcb == b.tcb;
    assert s.home == b.home;
    assert s.queue == b.queue;
  }

  /** The first sleeper is gone from the sleeping list. */
  lemma FirstGone(s: S.State<Thread, List>, t: Thread)
    requires s.running != s.sleeping && t in s.tcb && s.tcb[t].list == Some(s.sleeping)
    requires S.Q(s, s.sleeping) != [] && S.Q(s, s.sleeping)[0] == t
    ensures S.Q(S.SetRunnable(s, t), s.sleeping) == S.Q(s, s.sleeping)[1..]
  {
  }

  lemma WakeOnce(s: S.State<Thread, List>, n: nat)
    ensures !S.Due(s) ==> S.WakeLoop(s, n) == s
    ensures S.Due(s) && n > 0 ==> S.WakeLoop(s, n) == S.WakeLoop(S.SetRunnable(s, S.Q(s, s.sleeping)[0]), n - 1)
  {
  }

  lemma EnrolledIs(s: S.State<Thread, List>, s': S.State<Thread, List>, child: Thread, home: List)
    requires child !in s.tcb && child !in s.home
    requires s'.tcb.Keys == s.tcb.Keys + {child} && s'.home.Keys == s.home.Keys + {child} && s'.queue.Keys == s.queue.Keys + {home}
    requires s' == s.(tcb := s'.tcb, queue := s'.queue, home := s'.home)
    requires s'.tcb[child] == S.Tcb(Zombie, 0, None) && s'.home[child] == home && s'.queue[home] == S.Q(s, home)
    requires forall x :: x in s.tcb ==> s'.tcb[x] == s.tcb[x]
    requires forall x :: x in s.home ==> s'.home[x] == s.home[x]
    requires forall m :: m in s.queue ==> s'.queue[m] == s.queue[m]
    ensures s' == S.Enrolled(s, child, home)
  {
    var e := S.Enrolled(s, child, home);
    assert s'.tcb == e.tcb;
    assert s'.home == e.home;
    assert s'.queue == e.queue;
  }

  class Kernel {
    const running: List
    const sleeping: List
    var current: Thread
    var idle: Thread
    var ticks: nat
    /** All threads and lists there are, and the threads that have vanished. */
    ghost var threads: set<Thread>
    ghost var lists: set<List>
    ghost var gone: set<Thread>

    ghost predicate Valid()
      reads this`threads, this`lists, this`idle, lists, threads`list, threads`next, threads`prev
    {
      && Coherent(lists, threads)
      && running in lists && sleeping in lists && running != sleeping && idle in threads
      && forall t :: t in threads ==> t.home in lists
    }

    ghost function View(): (s: S.State<Thread, List>)
      reads this, lists, threads
      ensures s.running == running && s.sleeping == sleeping && s.idle == idle && s.ticks == ticks && s.gone == gone
    {
      S.State(Blocks(threads), Queues(lists), running, sleeping, Homes(threads), ticks, current, idle, gone)
    }

    /** The kernel with its first thread, which has the processor, and the idle
        thread; set_running on the first thread completes the start. */
    constructor (queue: List, asleep: List, waiting: List, first: Thread, last: Thread)
      requires queue != asleep && queue != waiting && asleep != waiting && first != last
      requires Chained(queue) && Chained(asleep) && Chained(waiting)
      requires queue.nodes == [] && asleep.nodes == [] && waiting.nodes == []
      requires TcbOf(first) == S.Tcb(Zombie, 0, None) && TcbOf(last) == S.Tcb(Zombie, 0, None)
      requires first.home == waiting && last.home == waiting
      ensures Valid() && threads == {first, last} && lists == {queue, asleep, waiting}
      ensures View() == R.Created(first, last, queue, asleep, waiting)
    {
      running, sleeping, current, idle, ticks := queue, asleep, first, last, 0;
      threads, lists, gone := {first, last}, {queue, asleep, waiting}, {};
      new;
      hide Blocks;
      hide Queues;
      hide Homes;
      hide Chained;
      CreatedIs(View(), first, last, queue, asleep, waiting);
    }

    // ----- moving one thread -----

    method Detach(t: Thread)
      requires Valid() && t in threads
      modifies threads, lists
      ensures Valid()
      ensures t.list == null && t.wake == old(t.wake) && t.state == Zombie
      ensures forall x :: x in threads && x != t ==> TcbOf(x) == old(TcbOf(x))
      ensures old(t.list) != null ==> old(t.list) in lists
      ensures forall m :: m in lists ==> m.nodes == if m == old(t.list) then Without(old(m.nodes), t) else old(m.nodes)
    {
      hide Coherent;
      hide Without;
      ListKnown(t, lists, threads);
      var r := Remove(t, lists, threads);
      t.state := Zombie;
    }

    method PushHead(t: Thread, l: List, tag: Tag)
      requires Valid() && t in threads && l in lists && t.list == null
      modifies threads, lists
      ensures Valid()
      ensures t.list == l && t.wake == old(t.wake) && t.state == tag
      ensures forall x :: x in threads && x != t ==> TcbOf(x) == old(TcbOf(x))
      ensures forall m :: m in lists ==> m.nodes == if m == l then [t] + old(m.nodes) else old(m.nodes)
    {
      hide Coherent;
      ListKnown(t, lists, threads);
      var r := AddHead(t, l, lists, threads);
      t.state := tag;
    }

    method PushTail(t: Thread, l: List, tag: Tag)
      requires Valid() && t in threads && l in lists && t.list == null
      modifies threads, lists
      ensures Valid()
      ensures t.list == l && t.wake == old(t.wake) && t.state == tag
      ensures forall x :: x in threads && x != t ==> TcbOf(x) == old(TcbOf(x))
      ensures forall m :: m in lists ==> m.nodes == if m == l then old(m.nodes) + [t] else old(m.nodes)
    {
      hide Coherent;
      ListKnown(t, lists, threads);
      t.state := tag;
      var r := AddTail(t, l, lists, threads);
    }

    method PushSorted(t: Thread, l: List, tag: Tag)
      requires Valid() && t in threads && l in lists && t.list == null
      modifies threads, lists
      ensures Valid()
      ensures t.list == l && t.wake == old(t.wake) && t.state == tag
      ensures forall x :: x in threads && x != t ==> TcbOf(x) == old(TcbOf(x))
      ensures forall m :: m in lists ==>
        m.nodes == if m == l then Inserted(old(m.nodes), Slot(old(Wakes(m.nodes)), t.wake), t) else old(m.nodes)
    {
      hide Coherent;
      hide Slot;
      hide Wakes;
      ListKnown(t, lists, threads);
      t.state := tag;
      var r := AddSorted(t, l, lists, threads);
    }

    method Mark(t: Thread, tag: Tag, wake: nat)
      requires Valid() && t in threads
      modifies threads
      ensures Valid()
      ensures t.state == tag && t.wake == wake && t.list == old(t.list)
      ensures forall x :: x in threads && x != t ==> TcbOf(x) == old(TcbOf(x))
      ensures forall m :: m in lists ==> m.nodes == old(m.nodes)
    {
      hide Coherent;
      t.state, t.wake := tag, wake;
    }

    // ----- the setters -----

    method UnsetState(t: Thread)
      requires Valid() && t in threads
      modifies threads, lists
      ensures Valid() && View() == S.Unset(old(View()), t) && t.list == null
    {
      hide Valid;
      hide Without;
      hide Blocks;
      hide Queues;
      hide Homes;
      hide S.Unset;
      Detach(t);
      UnsetIs(old(View()), View(), t);
    }

    method SetRunning(t: Thread)
      requires Valid() && t in threads
      modifies threads, lists
      ensures Valid() && View() == S.SetRunning(old(View()), t)
    {
      hide Blocks;
      hide Queues;
      hide Homes;
      hide Coherent;
      hide S.Unset;
      hide S.Place;
      UnsetState(t);
      ghost var u := View();
      PushHead(t, running, Running);
      PlaceIs(u, View(), t, running, [t] + u.queue[running], Running);
    }

    method SetRunnable(t: Thread)
      requires Valid() && t in threads
      modifies threads, lists
      ensures Valid() && View() == S.SetRunnable(old(View()), t)
    {
      hide Blocks;
      hide Queues;
      hide Homes;
      hide Coherent;
      hide S.Unset;
      hide S.Place;
      UnsetState(t);
      ghost var u := View();
      PushTail(t, running, Running);
      PlaceIs(u, View(), t, running, u.queue[running] + [t], Running);
    }

    method SetWaiting(t: Thread)
      requires Valid() && t in threads
      modifies threads, lists
      ensures Valid() && View() == S.SetWaiting(old(View()), t)
    {
      hide Blocks;
      hide Queues;
      hide Homes;
      hide Coherent;
      hide S.Unset;
      hide S.Place;
      UnsetState(t);
      ghost var u := View();
      PushTail(t, t.home, Waiting);
      PlaceIs(u, View(), t, t.home, u.queue[t.home] + [t], Waiting);
    }

    method SetBlocked(t: Thread)
      requires Valid() && t in threads
      modifies threads, lists
      ensures Valid() && View() == S.SetBlocked(old(View()), t)
    {
      hide Blocks;
      hide Queues;
      hide Homes;
      hide Coherent;
      hide S.Unset;
      UnsetState(t);
      ghost var u := View();
      Mark(t, Blocked, t.wake);
      BlockIs(u, View(), t, u.tcb[t].(tag := Blocked));
    }

    method SetWake(t: Thread, wake: nat)
      requires Valid() && t in threads
      modifies threads
      ensures Valid() && View() == S.SetWake(old(View()), t, wake) && t.list == old(t.list)
    {
      hide Blocks;
      hide Queues;
      hide Homes;
      hide Coherent;
      Mark(t, t.state, wake);
      BlockIs(old(View()), View(), t, old(View()).tcb[t].(wake := wake));
    }

    method PutToBed(t: Thread)
      requires Valid() && t in threads && t.list == null
      modifies threads, lists
      ensures Valid() && View() == S.Place(old(View()), t, sleeping, S.Bed(old(View()), t), Sleeping)
    {
      hide Blocks;
      hide Queues;
      hide Homes;
      hide Coherent;
      hide S.Place;
      hide Slot;
      hide Wakes;
      hide S.WakesOf;
      ghost var s := View();
      Ends(sleeping, lists, threads);
      assert Wakes(sleeping.nodes) == S.WakesOf(s, sleeping.nodes);
      PushSorted(t, sleeping, Sleeping);
      PlaceIs(s, View(), t, sleeping, S.Bed(s, t), Sleeping);
    }

    method SetSleeping(t: Thread, n: nat)
      requires Valid() && t in threads
      modifies threads, lists
      ensures Valid() && View() == S.SetSleeping(old(View()), t, n)
    {
      hide Blocks;
      hide Queues;
      hide Homes;
      hide Coherent;
      hide S.Unset;
      hide S.Place;
      hide S.SetWake;
      hide S.Bed;
      UnsetState(t);
      SetWake(t, ticks + n);
      ghost var due := View();
      PutToBed(t);
      assert due == S.SetWake(S.Unset(old(View()), t), t, ticks + n) && due.sleeping == sleeping;
    }

    // ----- giving the processor away -----

    /** get_running */
    method GetRunning() returns (r: Thread?)
      requires Valid()
      ensures r == At(running.nodes, 0) && (r != null ==> r in threads)
      ensures var q := S.Q(View(), running);
        if r == null then q == [] else q != [] && q[0] == r
    {
      hide Coherent;
      Ends(running, lists, threads);
      r := running.head;
    }

    /** get_running, or idle if nobody is runnable. */
    method NextThread() returns (r: Thread)
      requires Valid()
      ensures r in threads && r == S.Next(View())
    {
      hide Blocks;
      hide Queues;
      hide Homes;
      hide Coherent;
      var head := GetRunning();
      if head == null {
        return idle;
      }
      return head;
    }

    method SetCurrent(t: Thread)
      requires Valid()
      modifies this`current
      ensures Valid() && View() == old(View()).(self := t)
    {
      hide Coherent;
      current := t;
    }

    /** context_switch: `other` becomes the running thread. */
    method ContextSwitch(self: Thread, other: Thread)
      requires Valid() && other in threads
      modifies this`current, threads, lists
      ensures Valid() && View() == S.Switch(old(View()), self, other)
    {
      hide Blocks;
      hide Queues;
      hide Homes;
      hide Coherent;
      hide S.SetRunning;
      if self == other {
        return;
      }
      SetRunning(other);
      SetCurrent(other);
    }

    method HandOver(self: Thread)
      requires Valid()
      modifies this`current, threads, lists
      ensures Valid() && View() == S.Switch(old(View()), self, S.Next(old(View())))
    {
      hide View;
      hide Valid;
      hide Blocks;
      hide Queues;
      hide Homes;
      hide Coherent;
      hide S.Switch;
      hide S.Next;
      var other := NextThread();
      ContextSwitch(self, other);
    }

    method Deschedule(flag: int) returns (status: S.Status)
      requires Valid()
      modifies this`current, threads, lists
      ensures Valid() && (View(), status) == S.Step(old(View()), S.Deschedule(flag))
    {
      hide View;
      hide Blocks;
      hide Queues;
      hide Homes;
      hide Coherent;
      hide S.SetBlocked;
      hide S.Switch;
      hide S.Next;
      var self := GetRunning();
      if self == null {
        return S.Panic;
      }
      if flag != 0 {
        return S.Done;
      }
      SetBlocked(self);
      HandOver(self);
      return S.Done;
    }

    /** `found` is what the thread table has for `tid`. */
    method Yield(tid: int, found: Option<Thread>) returns (status: S.Status)
      requires Valid() && (found.Some? ==> found.value in threads)
      modifies this`current, threads, lists
      ensures Valid() && (View(), status) == S.Step(old(View()), S.Yield(tid, found))
    {
      hide Blocks;
      hide Queues;
      hide Homes;
      hide Coherent;
      hide S.SetRunnable;
      hide S.Switch;
      hide S.Next;
      var self := GetRunning();
      if self == null {
        return S.Panic;
      }
      if tid >= 0 && (found.None? || found.value.state != Running) {
        return S.NotRunnable;
      }
      hide Valid;
      SetRunnable(self);
      if tid >= 0 {
        ContextSwitch(self, found.value);
      } else {
        HandOver(self);
      }
      return S.Done;
    }

    method MakeRunnable(tid: int, found: Option<Thread>) returns (status: S.Status)
      requires Valid() && (found.Some? ==> found.value in threads)
      modifies this`current, threads, lists
      ensures Valid() && (View(), status) == S.Step(old(View()), S.MakeRunnable(tid, found))
    {
      hide Blocks;
      hide Queues;
      hide Homes;
      hide Coherent;
      hide S.SetRunnable;
      hide S.Switch;
      var self := GetRunning();
      if self == null {
        return S.Panic;
      }
      if tid < 0 {
        return S.InvalidTid;
      }
      if found.None? || found.value.state != Blocked {
        return S.NotBlocked;
      }
      SetRunnable(found.value);
      ContextSwitch(self, found.value);
      return S.Done;
    }

    /** yield with the thread table: the thread it switches to is the one the table
        has for `tid`. */
    method YieldTid(table: ThreadHash.Table, tid: int) returns (status: S.Status)
      requires Valid() && table.Valid() && table.entries.Values <= threads
      modifies this`current, threads, lists
      ensures Valid() && (View(), status) == S.Step(old(View()), S.Yield(tid, old(table.Named(tid))))
    {
      hide View;
      hide S.Step;
      hide Valid;
      var found := LookUp(table, tid);
      status := Yield(tid, found);
    }

    /** make_runnable with the thread table. */
    method MakeRunnableTid(table: ThreadHash.Table, tid: int) returns (status: S.Status)
      requires Valid() && table.Valid() && table.entries.Values <= threads
      modifies this`current, threads, lists
      ensures Valid() && (View(), status) == S.Step(old(View()), S.MakeRunnable(tid, old(table.Named(tid))))
    {
      hide View;
      hide S.Step;
      hide Valid;
      var found := LookUp(table, tid);
      status := MakeRunnable(tid, found);
    }

    /** thrhash_get, if there can be such a thread. */
    method LookUp(table: ThreadHash.Table, tid: int) returns (found: Option<Thread>)
      requires table.Valid()
      ensures found == table.Named(tid) && (found.Some? ==> found.value in table.entries.Values)
    {
      if tid < 0 {
        return None;
      }
      var t := table.Find(tid);
      return if t == null then None else Some(t);
    }

    method Sleep(n: int) returns (status: S.Status)
      requires Valid()
      modifies this`current, threads, lists
      ensures Valid() && (View(), status) == S.Step(old(View()), S.Sleep(n))
    {
      hide View;
      hide Blocks;
      hide Queues;
      hide Homes;
      hide Coherent;
      hide S.SetSleeping;
      hide S.Switch;
      hide S.Next;
      var self := GetRunning();
      if self == null {
        return S.Panic;
      }
      if n == 0 {
        return S.Done;
      }
      if n < 0 {
        return S.NegativeSleep;
      }
      SetSleeping(self, n);
      HandOver(self);
      return S.Done;
    }

    /** One round of the loop in wait: no child has exited yet. */
    method WaitRound() returns (status: S.Status)
      requires Valid()
      modifies this`current, threads, lists
      ensures Valid() && (View(), status) == S.Step(old(View()), S.Wait)
    {
      hide View;
      hide Blocks;
      hide Queues;
      hide Homes;
      hide Coherent;
      hide S.SetWaiting;
      hide S.Switch;
      hide S.Next;
      var self := GetRunning();
      if self == null {
        return S.Panic;
      }
      SetWaiting(self);
      HandOver(self);
      return S.Done;
    }

    ghost method MarkGone(t: Thread)
      requires Valid()
      modifies this`gone
      ensures Valid() && View() == old(View()).(gone := old(gone) + {t})
    {
      hide Coherent;
      gone := gone + {t};
    }

    method VanishThread(self: Thread)
      requires Valid() && self in threads
      modifies this`gone, threads, lists
      ensures Valid() && View() == S.Unset(old(View()), self).(gone := old(gone) + {self})
    {
      hide Valid;
      hide Blocks;
      hide Queues;
      hide Homes;
      hide Coherent;
      hide S.Unset;
      UnsetState(self);
      MarkGone(self);
    }

    /** get_waiting: the first thread of a waiting list. */
    method GetWaiting(l: List) returns (r: Thread?)
      requires Valid() && l in lists
      ensures r != null ==> r in threads
      ensures var q := S.Q(View(), l);
        if r == null then q == [] else q != [] && q[0] == r
    {
      hide Coherent;
      Ends(l, lists, threads);
      r := l.head;
    }

    /** The part of vanish that gives the processor away.  `waiters` is the waiting
        list of the parent if this is the last thread of a process that has one. */
    method Vanish(waiters: Option<List>) returns (status: S.Status)
      requires Valid() && (waiters.Some? ==> waiters.value in lists)
      modifies this`current, this`gone, threads, lists
      ensures Valid() && (View(), status) == S.Step(old(View()), S.Vanish(waiters))
    {
      hide View;
      hide Blocks;
      hide Queues;
      hide Homes;
      hide Coherent;
      hide S.Unset;
      hide S.SetRunnable;
      hide S.Switch;
      hide S.Next;
      hide S.Q;
      var self := GetRunning();
      if self == null {
        return S.Panic;
      }
      hide Valid;
      VanishThread(self);
      if waiters.Some? {
        var waiting := GetWaiting(waiters.value);
        if waiting != null {
          SetRunnable(waiting);
          ContextSwitch(self, waiting);
          return S.Done;
        }
      }
      HandOver(self);
      return S.Done;
    }

    // ----- the timer -----

    method Count()
      requires Valid()
      modifies this`ticks
      ensures Valid() && View() == old(View()).(ticks := old(ticks) + 1)
    {
      hide Coherent;
      ticks := ticks + 1;
    }

    /** The thread at the head of the sleeping list leaves it. */
    method WakeFirst(t: Thread)
      requires Valid() && sleeping.nodes != [] && sleeping.nodes[0] == t && t in threads
      modifies threads, lists
      ensures Valid() && View() == S.SetRunnable(old(View()), t) && |sleeping.nodes| == |old(sleeping.nodes)| - 1
    {
      hide Blocks;
      hide Queues;
      hide Homes;
      hide Coherent;
      hide S.Place;
      Listing(sleeping, t, lists, threads);
      SetRunnable(t);
      assert View().queue[sleeping] == sleeping.nodes && old(View()).queue[sleeping] == old(sleeping.nodes);
      FirstGone(old(View()), t);
    }

    method WakeDue() returns (awoken: bool)
      requires Valid()
      modifies threads, lists
      ensures Valid() && awoken == S.Due(old(View()))
      ensures View() == S.WakeLoop(old(View()), |S.Q(old(View()), sleeping)|)
    {
      hide View;
      hide Blocks;
      hide Queues;
      hide Homes;
      hide Coherent;
      hide S.SetRunnable;
      hide S.WakeLoop;
      hide S.Due;
      hide S.Q;
      awoken := false;
      var head := GetSleeping();
      while head != null && head.wake <= ticks
        invariant Valid() && head == At(sleeping.nodes, 0) && (head != null ==> head in threads)
        invariant head != null ==> S.Q(View(), sleeping) != [] && S.Q(View(), sleeping)[0] == head
        invariant (head != null && head.wake <= ticks) <==> S.Due(View())
        invariant |sleeping.nodes| == |S.Q(View(), sleeping)|
        invariant S.WakeLoop(View(), |sleeping.nodes|) == S.WakeLoop(old(View()), |S.Q(old(View()), sleeping)|)
        invariant if awoken then S.Due(old(View())) else View() == old(View())
        decreases |sleeping.nodes|
      {
        WakeOnce(View(), |sleeping.nodes|);
        WakeFirst(head);
        awoken := true;
        head := GetSleeping();
      }
      WakeOnce(View(), |sleeping.nodes|);
    }

    method GetSleeping() returns (r: Thread?)
      requires Valid()
      ensures r == At(sleeping.nodes, 0) && (r != null ==> r in threads)
      ensures r != null ==> S.Q(View(), sleeping) != [] && S.Q(View(), sleeping)[0] == r
      ensures (r != null && r.wake <= ticks) <==> S.Due(View())
      ensures |sleeping.nodes| == |S.Q(View(), sleeping)|
    {
      hide Coherent;
      Ends(sleeping, lists, threads);
      r := sleeping.head;
    }

    /** The rest of the timer. */
    method TimeSlice(self: Thread, awoken: bool)
      requires Valid() && self in threads && S.Q(View(), running) != [] && S.Q(View(), running)[0] == self
      modifies this`current, threads, lists
      ensures Valid() && View() == S.Slice(old(View()), awoken)
    {
      hide View;
      hide S.Unset;
      hide S.SetRunnable;
      hide S.Switch;
      hide S.Next;
      if awoken && self == idle {
        UnsetState(self);
        HandOver(self);
      } else if self != idle {
        SetRunnable(self);
        HandOver(self);
      } else {
        var ready := NumRunnable();
        if ready > 1 {
          UnsetState(self);
          HandOver(self);
        }
      }
    }

    method NumRunnable() returns (n: nat)
      requires Valid()
      ensures n == |S.Q(View(), running)|
    {
      hide Blocks;
      hide Queues;
      hide Homes;
      hide Coherent;
      Ends(running, lists, threads);
      return running.size;
    }

    method TimerHandler(noSwitch: bool) returns (status: S.Status)
      requires Valid()
      modifies this`ticks, this`current, threads, lists
      ensures Valid() && (View(), status) == S.Step(old(View()), S.Tick(noSwitch))
    {
      hide View;
      hide Valid;
      hide S.Slice;
      hide S.WakeLoop;
      hide S.Due;
      Count();
      if noSwitch {
        return S.Done;
      }
      var awoken := WakeDue();
      var self := GetRunning();
      if self == null {
        return S.Panic;
      }
      TimeSlice(self, awoken);
      return S.Done;
    }

    // ----- new threads -----

    /** A thread in no list, of a process whose waiting list is its home, becomes
        known. */
    method Enrol(child: Thread)
      requires Valid() && (child.home in lists || (Chained(child.home) && child.home.nodes == []))
      requires child !in threads && TcbOf(child) == S.Tcb(Zombie, 0, None)
      modifies this`threads, this`lists
      ensures Valid() && threads == old(threads) + {child} && lists == old(lists) + {child.home}
      ensures View() == S.Enrolled(old(View()), child, child.home)
    {
      hide Blocks;
      hide Queues;
      hide Homes;
      hide Coherent;
      hide Chained;
      CoherentGrows(lists, threads, child.home, child);
      ghost var s := View();
      threads, lists := threads + {child}, lists + {child.home};
      assert Valid();
      hide Valid;
      assert forall x :: x in s.tcb ==> View().tcb[x] == s.tcb[x];
      assert forall m :: m in s.queue ==> View().queue[m] == s.queue[m];
      EnrolledIs(s, View(), child, child.home);
    }

    method Start(child: Thread)
      requires Valid() && (child.home in lists || (Chained(child.home) && child.home.nodes == []))
      requires child !in threads && TcbOf(child) == S.Tcb(Zombie, 0, None)
      modifies this`threads, this`lists, threads, lists, child, child.home
      ensures Valid() && threads == old(threads) + {child} && lists == old(lists) + {child.home}
      ensures View() == S.SetRunnable(S.Enrolled(old(View()), child, child.home), child)
    {
      hide Valid;
      hide View;
      hide S.Enrolled;
      hide S.SetRunnable;
      Enrol(child);
      SetRunnable(child);
    }

    /** create_thread and set_runnable, as fork and thread_fork call them. */
    method Spawn(tid: nat, home: List) returns (child: Thread?, status: S.Status)
      requires Valid() && (home in lists || (Chained(home) && home.nodes == []))
      modifies this`threads, this`lists, threads, lists, home
      ensures Valid() && (status == S.Panic <==> child == null)
      ensures child == null ==> S.Q(old(View()), running) == [] && View() == old(View())
      ensures child != null ==>
        && fresh(child) && child.tid == tid && threads == old(threads) + {child} && lists == old(lists) + {home}
        && (View(), status) == S.Step(old(View()), S.Spawn(child, home))
    {
      hide Blocks;
      hide Queues;
      hide Homes;
      hide Coherent;
      hide View;
      hide S.Enrolled;
      hide S.SetRunnable;
      var self := GetRunning();
      if self == null {
        return null, S.Panic;
      }
      var fork := new Thread(tid, home);
      Start(fork);
      return fork, S.Done;
    }
  }
}

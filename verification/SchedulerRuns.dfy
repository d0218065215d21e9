/** What every step of the scheduler keeps, and what runs of it guarantee. */
module SchedulerRuns {
  import opened Collections
  import opened ThreadList
  import opened Scheduler

  // ----- what may be asked -----

  /** The arguments name threads and lists that there are, or a new thread. */
  ghost predicate Legal<T, L>(s: State<T, L>, op: Op<T, L>) {
    match op
    case Yield(_, found) => found.Some? ==> found.value in s.tcb
    case MakeRunnable(_, found) => found.Some? ==> found.value in s.tcb
    case Vanish(waiters) => waiters.Some? ==> waiters.value in s.queue && waiters.value != s.running && waiters.value != s.sleeping
    case Spawn(child, home) => child !in s.tcb && home != s.running && home != s.sleeping
    case _ => true
  }

  /** Idle has the processor and nobody else could. */
  predicate Alone<T, L>(s: State<T, L>) {
    s.self == s.idle && |Q(s, s.running)| == 1
  }

  /** What the callers must keep to: idle neither vanishes nor blocks while it is
      alone, and nobody yields to itself while others are runnable. */
  predicate Safe<T, L>(s: State<T, L>, op: Op<T, L>) {
    match op
    case Deschedule(flag) => flag == 0 ==> !Alone(s)
    case Sleep(n) => n > 0 ==> !Alone(s)
    case Wait => !Alone(s)
    case Vanish(_) => s.self != s.idle
    case Yield(tid, found) => tid >= 0 && found == Some(s.self) ==> |Q(s, s.running)| == 1
    case _ => true
  }

  // ----- giving the processor away -----

  lemma Member<T, L>(s: State<T, L>, l: L, t: T)
    requires Base(s) && l in s.queue && t in Q(s, l)
    ensures t in s.tcb && s.tcb[t].list == Some(l) && t !in s.gone && ListFor(s, t, s.tcb[t].tag) == Some(l)
  {
    assert ListOk(s, l);
    assert ThreadOk(s, t);
  }

  lemma SwitchInv<T, L>(s: State<T, L>, self: T, other: T)
    requires Base(s) && other in s.tcb && other !in s.gone && other != self
    ensures Inv(Switch(s, self, other))
    ensures Switch(s, self, other).self == other
    ensures MovedTo(s, Switch(s, self, other).(self := s.self), other, s.running, [other] + Without(Q(s, s.running), other),
                    s.tcb[other].(tag := Running, list := Some(s.running)))
  {
    SetRunningBase(s, other);
    var s1 := SetRunning(s, other);
    hide SetRunning;
    SelfBase(s1, other);
  }

  lemma SelfBase<T, L>(s: State<T, L>, t: T)
    requires Base(s)
    ensures Base(s.(self := t))
  {
    var s' := s.(self := t);
    forall m | m in s'.queue
      ensures ListOk(s', m)
    {
      assert ListOk(s, m);
    }
    forall x | x in s'.tcb
      ensures ThreadOk(s', x)
    {
      assert ThreadOk(s, x);
    }
    SameWakes(s, s', Q(s, s.sleeping));
  }

  /** The caller has left the running list: whoever is next, or idle, takes over,
      unless the caller is idle and was alone. */
  lemma GiveWay<T, L>(s: State<T, L>, s1: State<T, L>)
    requires Inv(s) && Base(s1) && s1.self == s.self && s1.idle == s.idle && s1.running == s.running
    requires Q(s1, s1.running) == Q(s, s.running)[1..]
    ensures Inv(Switch(s1, s.self, Next(s1))) <==> !Alone(s)
  {
    Distinct(s, s.running);
    var other := Next(s1);
    if Q(s1, s1.running) != [] {
      assert other == Q(s, s.running)[1];
      Member(s1, s1.running, other);
    }
    assert other == s.self <==> Alone(s);
    hide Base;
    if other != s.self {
      assert other in s1.tcb && other !in s1.gone by {
        IdleThere(s1);
      }
      SwitchInv(s1, s.self, other);
    }
  }

  lemma IdleThere<T, L>(s: State<T, L>)
    requires Base(s)
    ensures s.idle in s.tcb && s.idle !in s.gone && s.running in s.queue && s.sleeping in s.queue && s.running != s.sleeping
  {
  }

  /** The thread with the processor, as the head of the running list. */
  lemma Self<T, L>(s: State<T, L>)
    requires Inv(s)
    ensures s.self in s.tcb && s.self !in s.gone && s.tcb[s.self].tag.Running?
    ensures Without(Q(s, s.running), s.self) == Q(s, s.running)[1..]
  {
    Member(s, s.running, s.self);
    assert ThreadOk(s, s.self);
  }

  lemma DescheduleInv<T, L>(s: State<T, L>, flag: int)
    requires Inv(s)
    ensures Inv(DescheduleStep(s, s.self, flag).0) <==> (flag == 0 ==> !Alone(s))
  {
    Self(s);
    IdleThere(s);
    SetBlockedBase(s, s.self);
    hide Base;
    hide SetBlocked;
    hide Without;
    hide Switch;
    if flag == 0 {
      GiveWay(s, SetBlocked(s, s.self));
    }
  }

  lemma SleepInv<T, L>(s: State<T, L>, n: int)
    requires Inv(s)
    ensures Inv(SleepStep(s, s.self, n).0) <==> (n > 0 ==> !Alone(s))
  {
    Self(s);
    IdleThere(s);
    hide Base;
    hide SetSleeping;
    hide Without;
    hide Switch;
    if n > 0 {
      SetSleepingBase(s, s.self, n);
      SetSleepingEffect(s, s.self, n);
      GiveWay(s, SetSleeping(s, s.self, n));
    }
  }

  lemma WaitInv<T, L>(s: State<T, L>)
    requires Inv(s)
    ensures Inv(WaitStep(s, s.self).0) <==> !Alone(s)
  {
    Self(s);
    IdleThere(s);
    SetWaitingBase(s, s.self);
    assert ThreadOk(s, s.self);
    hide Base;
    hide SetWaiting;
    hide Without;
    hide Switch;
    GiveWay(s, SetWaiting(s, s.self));
  }

  lemma YieldInv<T, L>(s: State<T, L>, tid: int, found: Option<T>)
    requires Inv(s) && Legal(s, Yield(tid, found))
    ensures Inv(YieldStep(s, s.self, tid, found).0) <==> Safe(s, Yield(tid, found))
  {
    Self(s);
    IdleThere(s);
    SetRunnableBase(s, s.self);
    hide SetRunnable;
    hide Without;
    if tid < 0 || (found.Some? && s.tcb[found.value].tag.Running?) {
      var s1 := SetRunnable(s, s.self);
      assert Q(s1, s.running) == Q(s, s.running)[1..] + [s.self];
      Distinct(s, s.running);
      var other := if tid >= 0 then found.value else Next(s1);
      if tid < 0 {
        Member(s1, s1.running, other);
      } else {
        assert ThreadOk(s, other);
      }
      hide Base;
      if other != s.self {
        SwitchInv(s1, s.self, other);
      }
    }
  }

  lemma Alive<T, L>(s: State<T, L>, t: T)
    requires Base(s) && t in s.tcb && !s.tcb[t].tag.Zombie?
    ensures t !in s.gone
  {
    assert ThreadOk(s, t);
  }

  lemma MakeRunnableInv<T, L>(s: State<T, L>, tid: int, found: Option<T>)
    requires Inv(s) && Legal(s, MakeRunnable(tid, found))
    ensures Inv(MakeRunnableStep(s, s.self, tid, found).0)
  {
    hide Base;
    hide SetRunnable;
    hide SetRunning;
    hide Without;
    Self(s);
    if tid >= 0 && found.Some? && s.tcb[found.value].tag.Blocked? {
      Alive(s, found.value);
      SetRunnableBase(s, found.value);
      SwitchInv(SetRunnable(s, found.value), s.self, found.value);
    }
  }

  lemma SpawnInv<T, L>(s: State<T, L>, child: T, home: L)
    requires Inv(s) && Legal(s, Spawn(child, home))
    ensures Inv(SpawnStep(s, child, home).0)
  {
    var s1 := Enrolled(s, child, home);
    SpawnBase(s, child, home);
    IdleThere(s);
    Member(s, s.running, s.self);
    hide Base;
    SetRunnableBase(s1, child);
  }

  lemma SpawnBase<T, L>(s: State<T, L>, child: T, home: L)
    requires Base(s) && Legal(s, Spawn(child, home))
    ensures Base(Enrolled(s, child, home))
    ensures child !in s.gone
  {
    var s' := Enrolled(s, child, home);
    forall m | m in s'.queue
      ensures ListOk(s', m)
    {
      assert m in s.queue ==> ListOk(s, m);
    }
    forall x | x in s'.tcb
      ensures ThreadOk(s', x)
    {
      assert x != child ==> ThreadOk(s, x);
    }
    assert ListOk(s, s.sleeping);
    SameWakes(s, s', Q(s, s.sleeping));
  }

  lemma GoneBase<T, L>(s: State<T, L>, t: T)
    requires Base(s) && t in s.tcb && s.tcb[t].tag.Zombie? && t != s.idle
    ensures Base(s.(gone := s.gone + {t}))
  {
    var s' := s.(gone := s.gone + {t});
    forall m | m in s'.queue
      ensures ListOk(s', m)
    {
      assert ListOk(s, m);
    }
    forall x | x in s'.tcb
      ensures ThreadOk(s', x)
    {
      assert ThreadOk(s, x);
    }
    SameWakes(s, s', Q(s, s.sleeping));
  }

  lemma VanishInv<T, L>(s: State<T, L>, waiters: Option<L>)
    requires Inv(s) && Legal(s, Vanish(waiters))
    ensures Inv(VanishStep(s, s.self, waiters).0) <==> s.self != s.idle
  {
    var self := s.self;
    var u := Unset(s, self);
    var s1 := u.(gone := s.gone + {self});
    if self == s.idle {
      assert self in VanishStep(s, self, waiters).0.gone;
    } else {
      Self(s);
      IdleThere(s);
      UnsetBase(s, self);
      UnsetEffect(s, self);
      hide Unset;
      hide Without;
      hide Switch;
      GoneBase(u, self);
      if waiters.Some? && Q(s1, waiters.value) != [] {
        var waiting := Q(s1, waiters.value)[0];
        Member(s1, waiters.value, waiting);
        hide Base;
        SetRunnableBase(s1, waiting);
        hide SetRunnable;
        SwitchInv(SetRunnable(s1, waiting), self, waiting);
      } else {
        hide Base;
        GiveWay(s, s1);
      }
    }
  }

  // ----- the timer -----

  /** The first `k` sleepers have become runnable, in their order, behind all
      runnable threads. */
  ghost predicate Awoken<T, L>(s: State<T, L>, s': State<T, L>, k: nat) {
    && k <= |Q(s, s.sleeping)|
    && s' == s.(tcb := s'.tcb, queue := s'.queue)
    && Q(s', s.running) == Q(s, s.running) + Q(s, s.sleeping)[..k]
    && Q(s', s.sleeping) == Q(s, s.sleeping)[k..]
    && s'.tcb.Keys == s.tcb.Keys
    && (forall i :: 0 <= i < k ==> Block(s, Q(s, s.sleeping)[i]).wake <= s.ticks)
    && (forall t :: t in s.tcb ==> s'.tcb[t].wake == s.tcb[t].wake && (t !in Q(s, s.sleeping)[..k] ==> s'.tcb[t] == s.tcb[t]))
  }

  lemma FirstSleeper<T, L>(s: State<T, L>)
    requires Base(s) && Q(s, s.sleeping) != []
    ensures var t := Q(s, s.sleeping)[0];
      && t in s.tcb && t !in s.gone
      && Without(Q(s, s.running), t) == Q(s, s.running)
      && Without(Q(s, s.sleeping), t) == Q(s, s.sleeping)[1..]
  {
    var t := Q(s, s.sleeping)[0];
    Member(s, s.sleeping, t);
    assert ListOk(s, s.running);
    assert t !in Q(s, s.running);
    WithoutNone(Q(s, s.running), t);
  }

  lemma WakeOne<T, L>(s: State<T, L>)
    requires Base(s) && Due(s)
    ensures var s' := SetRunnable(s, Q(s, s.sleeping)[0]);
      Base(s') && Awoken(s, s', 1)
  {
    hide Base;
    hide SetRunnable;
    hide Without;
    var t := Q(s, s.sleeping)[0];
    IdleThere(s);
    FirstSleeper(s);
    SetRunnableBase(s, t);
    assert Q(s, s.sleeping)[..1] == [t];
  }

  lemma AwokenNone<T, L>(s: State<T, L>)
    ensures Awoken(s, s, 0)
  {
  }

  lemma {:induction false} WakeAll<T, L>(s: State<T, L>, n: nat) returns (k: nat)
    requires Base(s)
    ensures var s' := WakeLoop(s, n);
      Base(s') && Awoken(s, s', k) && (n >= |Q(s, s.sleeping)| ==> !Due(s')) && (Due(s) && n > 0 ==> k > 0)
    decreases n
  {
    hide Base;
    hide Awoken;
    hide SetRunnable;
    if n == 0 || !Due(s) {
      k := 0;
      AwokenNone(s);
    } else {
      var s1 := SetRunnable(s, Q(s, s.sleeping)[0]);
      WakeOne(s);
      var k1 := WakeAll(s1, n - 1);
      k := k1 + 1;
      AwokenOnce(s, s1, WakeLoop(s1, n - 1), k1);
    }
  }

  lemma AwokenOnce<T, L>(s: State<T, L>, s1: State<T, L>, s2: State<T, L>, k: nat)
    requires Awoken(s, s1, 1) && Awoken(s1, s2, k)
    ensures Awoken(s, s2, k + 1) && |Q(s1, s1.sleeping)| == |Q(s, s.sleeping)| - 1
  {
    var q := Q(s, s.sleeping);
    assert Q(s1, s1.sleeping) == q[1..];
    assert q[..1] + q[1..][..k] == q[..k + 1];
    assert q[1..][k..] == q[k + 1..];
    forall i | 0 <= i < k + 1
      ensures Block(s, q[i]).wake <= s.ticks
    {
      assert i > 0 ==> q[i] == q[1..][i - 1];
    }
  }

  /** The running list after a time slice. */
  function Rotated<T(==)>(q: seq<T>, idle: T): seq<T> {
    if q == [] then [] else if q[0] != idle then q[1..] + [q[0]] else if |q| > 1 then q[1..] else q
  }

  /** The running list has become `q`; sleepers and wake times are the same. */
  ghost predicate OnlyRunning<T, L>(s: State<T, L>, s': State<T, L>, q: seq<T>) {
    && s' == s.(tcb := s'.tcb, queue := s'.queue, self := s'.self)
    && Q(s', s.running) == q
    && Q(s', s.sleeping) == Q(s, s.sleeping)
    && s'.tcb.Keys == s.tcb.Keys
    && forall t :: t in s.tcb ==> s'.tcb[t].wake == s.tcb[t].wake
  }

  /** Switching to the head of the running list changes only who runs. */
  lemma SwitchToHead<T, L>(s: State<T, L>, self: T)
    requires Base(s) && Q(s, s.running) != [] && Q(s, s.running)[0] != self
    ensures Inv(Switch(s, self, Next(s))) && OnlyRunning(s, Switch(s, self, Next(s)), Q(s, s.running))
  {
    hide Base;
    hide Switch;
    hide SetRunning;
    hide Without;
    var other := Next(s);
    IdleThere(s);
    HeadAwake(s);
    assert Q(s, s.running) == [other] + Without(Q(s, s.running), other);
    SwitchInv(s, self, other);
  }

  lemma HeadAwake<T, L>(s: State<T, L>)
    requires Base(s) && Q(s, s.running) != []
    ensures var t := Q(s, s.running)[0];
      && t in s.tcb && t !in s.gone
      && Without(Q(s, s.sleeping), t) == Q(s, s.sleeping)
      && Without(Q(s, s.running), t) == Q(s, s.running)[1..]
      && forall i :: 1 <= i < |Q(s, s.running)| ==> Q(s, s.running)[i] != t
  {
    var t := Q(s, s.running)[0];
    Member(s, s.running, t);
    assert ListOk(s, s.sleeping) && ListOk(s, s.running);
    assert t !in Q(s, s.sleeping);
    WithoutNone(Q(s, s.sleeping), t);
  }

  lemma OnlyRunningTwice<T, L>(s: State<T, L>, s1: State<T, L>, s2: State<T, L>, q1: seq<T>, q2: seq<T>)
    requires OnlyRunning(s, s1, q1) && OnlyRunning(s1, s2, q2)
    ensures OnlyRunning(s, s2, q2)
  {
  }

  lemma SliceSelf<T, L>(s: State<T, L>)
    requires Inv(s) && s.self != s.idle
    ensures var s1 := SetRunnable(s, s.self);
      var s' := Switch(s1, s.self, Next(s1));
      Inv(s') && OnlyRunning(s, s', Rotated(Q(s, s.running), s.idle))
  {
    hide Base;
    hide Without;
    hide SetRunnable;
    hide Switch;
    IdleThere(s);
    HeadAwake(s);
    var s1 := SetRunnable(s, s.self);
    SetRunnableBase(s, s.self);
    var q := Q(s, s.running)[1..] + [s.self];
    assert OnlyRunning(s, s1, q);
    if q[0] == s.self {
      assert |q| == 1;
      assert Switch(s1, s.self, Next(s1)) == s1 by {
        SwitchSame(s1, s.self);
      }
    } else {
      SwitchToHead(s1, s.self);
      OnlyRunningTwice(s, s1, Switch(s1, s.self, Next(s1)), q, q);
    }
  }

  lemma SwitchSame<T, L>(s: State<T, L>, t: T)
    ensures Switch(s, t, t) == s
  {
  }

  lemma SliceIdle<T, L>(s: State<T, L>)
    requires Inv(s) && s.self == s.idle && |Q(s, s.running)| > 1
    ensures var s1 := Unset(s, s.self);
      var s' := Switch(s1, s.self, Next(s1));
      Inv(s') && OnlyRunning(s, s', Rotated(Q(s, s.running), s.idle))
  {
    hide Base;
    hide Without;
    hide Unset;
    hide Switch;
    IdleThere(s);
    HeadAwake(s);
    var s1, q := Unset(s, s.self), Q(s, s.running)[1..];
    UnsetBase(s, s.self);
    UnsetEffect(s, s.self);
    assert OnlyRunning(s, s1, q);
    SwitchToHead(s1, s.self);
    OnlyRunningTwice(s, s1, Switch(s1, s.self, Next(s1)), q, q);
  }

  lemma SliceInv<T, L>(s: State<T, L>, awoken: bool)
    requires Inv(s) && (awoken ==> |Q(s, s.running)| > 1)
    ensures Inv(Slice(s, awoken)) && OnlyRunning(s, Slice(s, awoken), Rotated(Q(s, s.running), s.idle))
  {
    hide Base;
    hide Unset;
    hide SetRunnable;
    hide Switch;
    if s.self != s.idle {
      SliceSelf(s);
    } else if |Q(s, s.running)| > 1 {
      SliceIdle(s);
    }
  }

  lemma TicksBase<T, L>(s: State<T, L>, ticks: nat)
    requires Base(s)
    ensures Base(s.(ticks := ticks))
  {
    var s' := s.(ticks := ticks);
    forall m | m in s'.queue
      ensures ListOk(s', m)
    {
      assert ListOk(s, m);
    }
    forall x | x in s'.tcb
      ensures ThreadOk(s', x)
    {
      assert ThreadOk(s, x);
    }
    SameWakes(s, s', Q(s, s.sleeping));
  }

  /** Exactly the first `k` sleepers, those that are due, have become runnable, in
      order; then the running list has been rotated. */
  ghost predicate Ticked<T, L>(s: State<T, L>, s': State<T, L>, k: nat) {
    var sleepers := Q(s, s.sleeping);
    && s' == s.(ticks := s.ticks + 1, tcb := s'.tcb, queue := s'.queue, self := s'.self)
    && k <= |sleepers|
    && Q(s', s.sleeping) == sleepers[k..]
    && Q(s', s.running) == Rotated(Q(s, s.running) + sleepers[..k], s.idle)
    && (forall i :: 0 <= i < |sleepers| ==> (i < k <==> Block(s, sleepers[i]).wake <= s'.ticks))
    && s'.tcb.Keys == s.tcb.Keys
    && (forall t :: t in s.tcb ==> t in s'.tcb && s'.tcb[t].wake == s.tcb[t].wake)
  }

  lemma AwokenInv<T, L>(s: State<T, L>, s': State<T, L>, k: nat)
    requires Coherence(s) && Base(s') && Awoken(s, s', k)
    ensures Inv(s') && |Q(s', s'.running)| == |Q(s, s.running)| + k
  {
    hide *;
    AwokenQueue(s, s', k);
    AwokenHead(s, s', Q(s', s'.running)[|Q(s, s.running)|..]);
  }

  /** Woken threads go to the end of the running list. */
  lemma AwokenQueue<T, L>(s: State<T, L>, s': State<T, L>, k: nat)
    requires Awoken(s, s', k)
    ensures s'.self == s.self
    ensures |Q(s', s'.running)| == |Q(s, s.running)| + k
    ensures Q(s', s'.running) == Q(s, s.running) + Q(s', s'.running)[|Q(s, s.running)|..]
  {
    hide Q;
  }

  lemma AwokenHead<T, L>(s: State<T, L>, s': State<T, L>, more: seq<T>)
    requires Coherence(s) && Base(s') && s'.self == s.self
    requires Q(s', s'.running) == Q(s, s.running) + more
    ensures Inv(s')
  {
    hide Base;
    hide Q;
  }

  lemma TickedFrom<T, L>(s: State<T, L>, s1: State<T, L>, s2: State<T, L>, s3: State<T, L>, k: nat)
    requires s1 == s.(ticks := s.ticks + 1) && Awoken(s1, s2, k)
    requires OnlyRunning(s2, s3, Rotated(Q(s2, s2.running), s2.idle))
    requires forall i :: 0 <= i < |Q(s1, s1.sleeping)| ==> (i < k <==> Block(s1, Q(s1, s1.sleeping)[i]).wake <= s1.ticks)
    ensures Ticked(s, s3, k)
  {
    hide Rotated;
    assert forall t :: t in s.tcb ==> s3.tcb[t].wake == s2.tcb[t].wake;
  }

  /** A tick that may switch wakes exactly the sleepers that are due, in order, and
      then rotates the running list; idle drops out of it unless it is alone. */
  lemma TickExact<T, L>(s: State<T, L>) returns (k: nat)
    requires Inv(s)
    ensures TickStep(s, false).1 == Done && Inv(TickStep(s, false).0) && Ticked(s, TickStep(s, false).0, k)
  {
    var s1 := s.(ticks := s.ticks + 1);
    hide Base;
    hide Slice;
    hide WakeLoop;
    hide Awoken;
    hide OnlyRunning;
    hide Ticked;
    TicksBase(s, s.ticks + 1);
    k := WakeExact(s1);
    var s2 := WakeLoop(s1, |Q(s1, s1.sleeping)|);
    AwokenInv(s1, s2, k);
    SliceInv(s2, Due(s1));
    TickedFrom(s, s1, s2, Slice(s2, Due(s1)), k);
  }

  lemma WakeExact<T, L>(s: State<T, L>) returns (k: nat)
    requires Base(s)
    ensures var s', sleepers := WakeLoop(s, |Q(s, s.sleeping)|), Q(s, s.sleeping);
      && Base(s') && Awoken(s, s', k) && (Due(s) ==> k > 0)
      && forall i :: 0 <= i < |sleepers| ==> (i < k <==> Block(s, sleepers[i]).wake <= s.ticks)
  {
    hide Base;
    hide WakeLoop;
    SleepersSorted(s);
    k := WakeAll(s, |Q(s, s.sleeping)|);
    var s', sleepers := WakeLoop(s, |Q(s, s.sleeping)|), Q(s, s.sleeping);
    forall i | 0 <= i < |sleepers|
      ensures i < k <==> Block(s, sleepers[i]).wake <= s.ticks
    {
      if i >= k {
        assert Q(s', s.sleeping)[0] == sleepers[k];
        assert Block(s', sleepers[k]).wake == Block(s, sleepers[k]).wake;
      }
    }
  }

  lemma SleepersSorted<T, L>(s: State<T, L>)
    requires Base(s)
    ensures var q := Q(s, s.sleeping);
      && (forall i, j :: 0 <= i < j < |q| ==> Block(s, q[i]).wake <= Block(s, q[j]).wake)
      && (forall i :: 0 <= i < |q| ==> q[i] in s.tcb)
  {
    assert ListOk(s, s.sleeping);
    var q := Q(s, s.sleeping);
    forall i, j | 0 <= i < j < |q|
      ensures Block(s, q[i]).wake <= Block(s, q[j]).wake
    {
      assert WakesOf(s, q)[i] <= WakesOf(s, q)[j];
    }
  }

  // ----- every step -----

  /** From a good state a call or tick never panics, and leads to a good state if
      and only if the caller keeps to the rules. */
  lemma StepExact<T, L>(s: State<T, L>, op: Op<T, L>)
    requires Inv(s) && Legal(s, op)
    ensures Step(s, op).1 != Panic
    ensures Inv(Step(s, op).0) <==> Safe(s, op)
  {
    hide Base;
    hide DescheduleStep;
    hide YieldStep;
    hide MakeRunnableStep;
    hide SleepStep;
    hide WaitStep;
    hide VanishStep;
    hide SpawnStep;
    hide WakeLoop;
    hide Slice;
    if !op.Tick? {
      StepStatus(s, op);
    }
    match op
    case Deschedule(flag) => DescheduleInv(s, flag);
    case Yield(tid, found) => YieldInv(s, tid, found);
    case MakeRunnable(tid, found) => MakeRunnableInv(s, tid, found);
    case Sleep(n) => SleepInv(s, n);
    case Wait => WaitInv(s);
    case Vanish(waiters) => VanishInv(s, waiters);
    case Spawn(child, home) => SpawnInv(s, child, home);
    case Tick(noSwitch) =>
      if noSwitch {
        TicksBase(s, s.ticks + 1);
      } else {
        var k := TickExact(s);
      }
  }

  lemma StepStatus<T, L>(s: State<T, L>, op: Op<T, L>)
    requires Inv(s) && !op.Tick?
    ensures Step(s, op).1 != Panic
  {
    hide Base;
    hide Switch;
    hide SetRunnable;
    hide SetBlocked;
    hide SetSleeping;
    hide SetWaiting;
    hide Unset;
  }

  /** A thread is runnable exactly when it is in the running list. */
  lemma RunnableListed<T, L>(s: State<T, L>, t: T)
    requires Base(s) && t in s.tcb
    ensures s.tcb[t].tag.Running? <==> t in Q(s, s.running)
  {
    assert ThreadOk(s, t) && ListOk(s, s.running);
  }

  /** What the calls answer, and that a call that is refused, or asks for nothing, changes
      nothing: yield refuses a thread that is not in the running list, make_runnable a
      negative id or a thread that is not blocked, sleep a negative time. */
  lemma CallAnswers<T, L>(s: State<T, L>, op: Op<T, L>)
    requires Inv(s) && Legal(s, op)
    ensures Step(s, op).1 == match op
      case Yield(tid, found) => if tid < 0 || (found.Some? && found.value in Q(s, s.running)) then Done else NotRunnable
      case MakeRunnable(tid, found) =>
        if tid < 0 then InvalidTid else if found.Some? && s.tcb[found.value].tag.Blocked? then Done else NotBlocked
      case Sleep(n) => if n < 0 then NegativeSleep else Done
      case _ => Done
    ensures Step(s, op).1 != Done || (op.Deschedule? && op.flag != 0) || (op.Sleep? && op.n == 0) ==> Step(s, op).0 == s
  {
    hide Base;
    hide Switch;
    hide SetRunnable;
    hide SetBlocked;
    hide SetSleeping;
    hide SetWaiting;
    hide Unset;
    hide TickStep;
    if op.Yield? && op.found.Some? {
      RunnableListed(s, op.found.value);
    }
    if op.Tick? {
      TickAnswers(s, op.noSwitch);
    }
  }

  lemma TickAnswers<T, L>(s: State<T, L>, noSwitch: bool)
    requires Inv(s)
    ensures TickStep(s, noSwitch).1 == Done
  {
    if !noSwitch {
      var k := TickExact(s);
    }
  }

  // ----- runs -----

  function Run<T, L>(s: State<T, L>, ops: seq<Op<T, L>>): State<T, L> {
    if ops == [] then s else Step(Run(s, ops[..|ops| - 1]), ops[|ops| - 1]).0
  }

  /** Every step of the run is asked for legally and keeps to the rules. */
  ghost predicate Orderly<T, L>(s: State<T, L>, ops: seq<Op<T, L>>) {
    ops == [] ||
    (var before, op := ops[..|ops| - 1], ops[|ops| - 1];
     Orderly(s, before) && Legal(Run(s, before), op) && Safe(Run(s, before), op))
  }

  /** The first thread, which has the processor, and idle, in no list yet. */
  function Created<T(==), L(==)>(self: T, idle: T, running: L, sleeping: L, waiting: L): State<T, L> {
    State(map[self := Tcb(Zombie, 0, None), idle := Tcb(Zombie, 0, None)], map[running := [], sleeping := [], waiting := []],
          running, sleeping, map[self := waiting, idle := waiting], 0, self, idle, {})
  }

  /** The kernel at boot. */
  function Boot<T(==), L(==)>(self: T, idle: T, running: L, sleeping: L, waiting: L): State<T, L> {
    SetRunning(Created(self, idle, running, sleeping, waiting), self)
  }

  lemma BootInv<T, L>(self: T, idle: T, running: L, sleeping: L, waiting: L)
    requires running != sleeping && sleeping != waiting && running != waiting
    ensures Inv(Boot(self, idle, running, sleeping, waiting))
    ensures Q(Boot(self, idle, running, sleeping, waiting), running) == [self]
  {
    var s := Created(self, idle, running, sleeping, waiting);
    assert forall t :: t in s.tcb ==> t == self || t == idle;
    assert forall l :: l in s.queue ==> l == running || l == sleeping || l == waiting;
    assert Q(s, running) == [] && Q(s, sleeping) == [] && Q(s, waiting) == [];
    forall t | t in s.tcb
      ensures ThreadOk(s, t)
    {
    }
    forall l | l in s.queue
      ensures ListOk(s, l)
    {
    }
    SetRunningBase(s, self);
  }

  /** Over every orderly run each thread is in the one list its tag stands for, the
      head of the running list is the thread that has the processor, it has not
      vanished, and get_self does not panic. */
  lemma {:induction false} RunInv<T, L>(s: State<T, L>, ops: seq<Op<T, L>>)
    requires Inv(s) && Orderly(s, ops)
    ensures Inv(Run(s, ops)) && Run(s, ops).self !in Run(s, ops).gone
    ensures ops != [] ==> Step(Run(s, ops[..|ops| - 1]), ops[|ops| - 1]).1 != Panic
  {
    hide Base;
    hide Step;
    if ops != [] {
      var before, op := ops[..|ops| - 1], ops[|ops| - 1];
      RunInv(s, before);
      StepExact(Run(s, before), op);
    }
    Self(Run(s, ops));
  }

  // ----- bounded waiting -----

  /** At a switching tick a thread that is not at the head moves up by one place,
      whoever wakes up. */
  lemma TickAdvances<T, L>(s: State<T, L>, i: nat)
    requires Inv(s) && 1 <= i < |Q(s, s.running)|
    ensures var s' := TickStep(s, false).0;
      && s'.running == s.running
      && i - 1 < |Q(s', s'.running)| && Q(s', s'.running)[i - 1] == Q(s, s.running)[i]
  {
    hide Base;
    hide TickStep;
    var k := TickExact(s);
  }

  /** The number of switching ticks. */
  function Slices<T, L>(ops: seq<Op<T, L>>): nat {
    if ops == [] then 0 else Slices(ops[..|ops| - 1]) + if ops[|ops| - 1] == Tick(false) then 1 else 0
  }

  /** A thread in place `i` has the processor after `i` switching ticks. */
  lemma {:induction false} BoundedWaiting<T, L>(s: State<T, L>, ops: seq<Op<T, L>>, i: nat)
    requires Inv(s) && i < |Q(s, s.running)| && Slices(ops) <= i
    requires forall j :: 0 <= j < |ops| ==> ops[j].Tick?
    ensures var s' := Run(s, ops);
      && Inv(s') && i - Slices(ops) < |Q(s', s'.running)|
      && Q(s', s'.running)[i - Slices(ops)] == Q(s, s.running)[i]
      && (Slices(ops) == i ==> s'.self == Q(s, s.running)[i])
  {
    hide Base;
    hide Step;
    if ops != [] {
      var before, op := ops[..|ops| - 1], ops[|ops| - 1];
      BoundedWaiting(s, before, i);
      AnyTick(Run(s, before), op, i - Slices(before));
    }
  }

  lemma AnyTick<T, L>(s: State<T, L>, op: Op<T, L>, i: nat)
    requires Inv(s) && op.Tick? && i < |Q(s, s.running)| && (op.noSwitch || i > 0)
    ensures var s', j := Step(s, op).0, if op.noSwitch then i else i - 1;
      Inv(s') && j < |Q(s', s'.running)| && Q(s', s'.running)[j] == Q(s, s.running)[i]
  {
    hide Base;
    hide TickStep;
    StepExact(s, op);
    if op.noSwitch {
      QuietTick(s);
    } else {
      TickAdvances(s, i);
    }
  }

  lemma QuietTick<T, L>(s: State<T, L>)
    ensures TickStep(s, true).0 == s.(ticks := s.ticks + 1)
  {
  }

  // ----- sleeping -----

  ghost predicate Kept<T, L>(s: State<T, L>, s': State<T, L>, t: T) {
    t in s.tcb && t in s'.tcb && s'.tcb[t] == s.tcb[t]
  }

  /** The setters touch no control block but the one they are given. */
  lemma SettersElsewhere<T, L>(s: State<T, L>, x: T, t: T, n: nat)
    requires t in s.tcb && t != x
    ensures Kept(s, Unset(s, x), t) && Kept(s, SetRunning(s, x), t) && Kept(s, SetRunnable(s, x), t)
    ensures Kept(s, SetBlocked(s, x), t) && Kept(s, SetSleeping(s, x, n), t) && Kept(s, SetWaiting(s, x), t)
  {
    hide Without;
    hide Slot;
    hide Bed;
  }

  lemma SwitchElsewhere<T, L>(s: State<T, L>, self: T, other: T, t: T)
    requires t in s.tcb && t != other
    ensures Kept(s, Switch(s, self, other), t)
  {
    SettersElsewhere(s, other, t, 0);
    hide SetRunning;
  }

  /** The caller has left the running list and the next thread takes over. */
  lemma GiveWayKeeps<T, L>(s: State<T, L>, s1: State<T, L>, t: T)
    requires Inv(s) && t in s.tcb && s.tcb[t].tag.Sleeping? && Kept(s, s1, t) && (t == s.idle ==> |Q(s, s.running)| > 1)
    requires s1.running == s.running && s1.idle == s.idle && Q(s1, s1.running) == Q(s, s.running)[1..]
    ensures Kept(s, Switch(s1, s.self, Next(s1)), t)
  {
    OnlyAsleep(s, t);
    hide Base;
    hide Switch;
    SwitchElsewhere(s1, s.self, Next(s1), t);
  }

  lemma OnlyAsleep<T, L>(s: State<T, L>, t: T)
    requires Base(s) && t in s.tcb && s.tcb[t].tag.Sleeping?
    ensures t in Q(s, s.sleeping)
    ensures forall l :: l in s.queue && l != s.sleeping ==> t !in Q(s, l)
  {
    assert ThreadOk(s, t);
    forall l | l in s.queue && l != s.sleeping
      ensures t !in Q(s, l)
    {
      assert ListOk(s, l);
    }
  }

  /** The call leaves the running list empty, so that idle is switched to. */
  predicate Empties<T, L>(s: State<T, L>, op: Op<T, L>) {
    |Q(s, s.running)| == 1 &&
    match op
    case Deschedule(flag) => flag == 0
    case Sleep(n) => n > 0
    case Wait => true
    case Vanish(waiters) => waiters.None? || Q(s, waiters.value) == []
    case _ => false
  }

  /** The threads a call takes from one list to another are runnable, blocked,
      waiting or, if nobody else is left, idle: what a sleeper knows does not
      change. */
  lemma SleeperKept<T, L>(s: State<T, L>, op: Op<T, L>, t: T)
    requires Inv(s) && Legal(s, op) && !op.Tick?
    requires t in s.tcb && s.tcb[t].tag.Sleeping? && (t == s.idle ==> !Empties(s, op))
    ensures Kept(s, Step(s, op).0, t)
  {
    hide Base;
    hide Without;
    hide Switch;
    hide Unset;
    hide SetRunnable;
    hide SetBlocked;
    hide SetSleeping;
    hide SetWaiting;
    var self := s.self;
    Self(s);
    IdleThere(s);
    SettersElsewhere(s, self, t, match op case Sleep(n) => (if n > 0 then n else 0) case _ => 0);
    match op
    case Deschedule(flag) =>
      if flag == 0 {
        SetBlockedBase(s, self);
        GiveWayKeeps(s, SetBlocked(s, self), t);
      }
    case Yield(tid, found) =>
      SetRunnableBase(s, self);
      OnlyAsleep(s, t);
      var s1 := SetRunnable(s, self);
      if tid < 0 || (found.Some? && s.tcb[found.value].tag.Running?) {
        SwitchElsewhere(s1, self, if tid >= 0 then found.value else Next(s1), t);
      }
    case MakeRunnable(tid, found) =>
      if tid >= 0 && found.Some? && s.tcb[found.value].tag.Blocked? {
        SettersElsewhere(s, found.value, t, 0);
        SwitchElsewhere(SetRunnable(s, found.value), self, found.value, t);
      }
    case Sleep(n) =>
      if n > 0 {
        SetSleepingEffect(s, self, n);
        GiveWayKeeps(s, SetSleeping(s, self, n), t);
      }
    case Wait =>
      SetWaitingBase(s, self);
      HomeApart(s, self);
      GiveWayKeeps(s, SetWaiting(s, self), t);
    case Vanish(waiters) => VanishKeeps(s, waiters, t);
    case Spawn(child, home) =>
      SettersElsewhere(Enrolled(s, child, home), child, t, 0);
  }

  lemma HomeApart<T, L>(s: State<T, L>, t: T)
    requires Base(s) && t in s.tcb
    ensures t in s.home && s.home[t] != s.running && s.home[t] != s.sleeping
  {
    assert ThreadOk(s, t);
  }

  lemma VanishKeeps<T, L>(s: State<T, L>, waiters: Option<L>, t: T)
    requires Inv(s) && Legal(s, Vanish(waiters))
    requires t in s.tcb && s.tcb[t].tag.Sleeping? && (t == s.idle ==> !Empties(s, Vanish(waiters)))
    ensures Kept(s, VanishStep(s, s.self, waiters).0, t)
  {
    hide Base;
    hide Without;
    hide Switch;
    hide Unset;
    hide SetRunnable;
    Self(s);
    IdleThere(s);
    OnlyAsleep(s, t);
    SettersElsewhere(s, s.self, t, 0);
    UnsetBase(s, s.self);
    UnsetEffect(s, s.self);
    OnlyAsleep(Unset(s, s.self), t);
    if waiters.Some? {
      OnlyRunnable(s, waiters.value);
      WithoutNone(Q(s, waiters.value), s.self);
    }
    var s1 := Unset(s, s.self).(gone := s.gone + {s.self});
    if waiters.Some? && Q(s1, waiters.value) != [] {
      var waiting := Q(s1, waiters.value)[0];
      SettersElsewhere(s1, waiting, t, 0);
      SwitchElsewhere(SetRunnable(s1, waiting), s.self, waiting, t);
    } else {
      GiveWayKeeps(s, s1, t);
    }
  }

  /** A new sleeper goes behind all those due no later than it, and in front of all
      those due later; the others keep their order. */
  lemma SleepInOrder<T, L>(s: State<T, L>, n: nat) returns (k: nat)
    requires Inv(s)
    ensures var s', q := SetSleeping(s, s.self, n), Q(s, s.sleeping);
      && s'.tcb[s.self].wake == s.ticks + n
      && k <= |q| && Q(s', s.sleeping) == q[..k] + [s.self] + q[k..]
      && forall i :: 0 <= i < |q| ==> (i < k <==> Block(s, q[i]).wake <= s.ticks + n)
  {
    hide SetSleeping;
    hide Without;
    hide Slot;
    Self(s);
    HeadAwake(s);
    SetSleepingEffect(s, s.self, n);
    var q := Q(s, s.sleeping);
    InsertSorted(WakesOf(s, q), s.ticks + n);
    k := Slot(WakesOf(s, q), s.ticks + n);
  }

  /** After a switching tick nobody who is due is still asleep. */
  lemma NoneOverdue<T, L>(s: State<T, L>, t: T)
    requires Inv(s) && t in Q(TickStep(s, false).0, s.sleeping)
    ensures Block(TickStep(s, false).0, t).wake > TickStep(s, false).0.ticks
  {
    hide Base;
    hide TickStep;
    hide Rotated;
    SleepersSorted(s);
    var k := TickExact(s);
    var s', q := TickStep(s, false).0, Q(s, s.sleeping);
    var i :| 0 <= i < |q[k..]| && q[k..][i] == t;
    assert q[k + i] == t;
  }

  /** A switching tick wakes a sleeper if and only if it is due. */
  lemma TickWakes<T, L>(s: State<T, L>, t: T)
    requires Inv(s) && t in s.tcb && s.tcb[t].tag.Sleeping?
    ensures var s' := TickStep(s, false).0;
      && t in s'.tcb && s'.tcb[t].wake == s.tcb[t].wake
      && s'.tcb[t].tag == if s.tcb[t].wake <= s'.ticks then Running else Sleeping
  {
    hide Base;
    hide TickStep;
    hide Rotated;
    var k := TickExact(s);
    var s', q := TickStep(s, false).0, Q(s, s.sleeping);
    OnlyAsleep(s, t);
    var i :| 0 <= i < |q| && q[i] == t;
    if i < k {
      var woken := Q(s, s.running) + q[..k];
      assert t == woken[|Q(s, s.running)| + i] && s.self == woken[0];
      IdleThere(s);
      assert t != s.self;
      RotatedKeeps(woken, s.idle, t);
    } else {
      assert t == q[k..][i - k];
    }
    TagOf(s', t);
  }

  lemma RotatedKeeps<T>(q: seq<T>, idle: T, t: T)
    requires t in q && t != q[0]
    ensures t in Rotated(q, idle)
  {
    assert q == [q[0]] + q[1..];
  }

  lemma TagOf<T, L>(s: State<T, L>, t: T)
    requires Base(s)
    ensures t in Q(s, s.running) ==> t in s.tcb && s.tcb[t].tag.Running?
    ensures t in Q(s, s.sleeping) ==> t in s.tcb && s.tcb[t].tag.Sleeping?
  {
    assert ListOk(s, s.running) && ListOk(s, s.sleeping);
    if t in s.tcb {
      assert ThreadOk(s, t);
    }
  }

  /** Only ticks move the clock, and idle stays the same thread. */
  lemma StepClock<T, L>(s: State<T, L>, op: Op<T, L>)
    requires Inv(s)
    ensures Step(s, op).0.ticks == s.ticks + (if op.Tick? then 1 else 0) && Step(s, op).0.idle == s.idle
  {
    hide Base;
    hide Without;
    hide Slot;
    hide Bed;
    hide Block;
    hide Q;
    if op == Tick(false) {
      var k := TickExact(s);
      hide TickStep;
    }
  }

  /** A step before the wake tick leaves a sleeper asleep, unless the sleeper is idle
      and the step leaves the running list empty. */
  lemma SleeperStep<T, L>(s: State<T, L>, op: Op<T, L>, t: T)
    requires Inv(s) && Legal(s, op) && Safe(s, op)
    requires t in s.tcb && s.tcb[t].tag.Sleeping? && Step(s, op).0.ticks < s.tcb[t].wake
    ensures Kept(s, Step(s, op).0, t) <==> !(t == s.idle && Empties(s, op))
  {
    hide Base;
    hide TickStep;
    if t == s.idle && Empties(s, op) {
      IdleWokenEarly(s, op);
    } else if !op.Tick? {
      SleeperKept(s, op, t);
    } else if op.noSwitch {
      QuietTick(s);
    } else {
      TickWakes(s, t);
      StepExact(s, op);
      Listed(s, t);
      Listed(TickStep(s, false).0, t);
      var k := TickExact(s);
    }
  }

  /** Idle asleep is switched to when nobody else is left, whatever its wake time. */
  lemma IdleWokenEarly<T, L>(s: State<T, L>, op: Op<T, L>)
    requires Inv(s) && Legal(s, op) && Safe(s, op) && Empties(s, op)
    ensures var s' := Step(s, op).0;
      s'.self == s.idle && s.idle in s'.tcb && s'.tcb[s.idle].tag.Running? && s'.ticks == s.ticks
  {
    hide Base;
    hide Step;
    CallExact(s, op);
    StepExact(s, op);
    StepClock(s, op);
    TagOf(Step(s, op).0, s.idle);
  }

  /** Thread `t` is asleep, with the same wake time, after each step of the run. */
  ghost predicate AsleepThroughout<T, L>(s: State<T, L>, ops: seq<Op<T, L>>, t: T) {
    ops == [] || (AsleepThroughout(s, ops[..|ops| - 1], t) && Kept(s, Run(s, ops), t))
  }

  /** No step of the run leaves the running list empty. */
  ghost predicate Busy<T, L>(s: State<T, L>, ops: seq<Op<T, L>>) {
    ops == [] || (Busy(s, ops[..|ops| - 1]) && !Empties(Run(s, ops[..|ops| - 1]), ops[|ops| - 1]))
  }

  /** Until its wake tick a sleeper stays asleep, whatever is called and however often
      the clock ticks; for idle, if and only if no step leaves the running list
      empty. */
  lemma {:induction false} SleepsUntilDue<T, L>(s: State<T, L>, ops: seq<Op<T, L>>, t: T)
    requires Inv(s) && Orderly(s, ops) && t in s.tcb && s.tcb[t].tag.Sleeping?
    ensures s.ticks <= Run(s, ops).ticks && Run(s, ops).idle == s.idle
    ensures Run(s, ops).ticks < s.tcb[t].wake ==> (AsleepThroughout(s, ops, t) <==> t != s.idle || Busy(s, ops))
  {
    hide Base;
    hide Step;
    hide Empties;
    if ops != [] {
      var before, op := ops[..|ops| - 1], ops[|ops| - 1];
      SleepsUntilDue(s, before, t);
      RunInv(s, before);
      var s1 := Run(s, before);
      StepClock(s1, op);
      if Run(s, ops).ticks < s.tcb[t].wake && AsleepThroughout(s, before, t) {
        assert before != [] ==> Kept(s, s1, t);
        SleeperStep(s1, op, t);
      }
    }
  }

  lemma Listed<T, L>(s: State<T, L>, t: T)
    requires Base(s) && t in s.tcb
    ensures s.tcb[t].list == ListFor(s, t, s.tcb[t].tag)
  {
    assert ThreadOk(s, t);
  }

  // ----- what happens outside the rules -----

  /** A thread that yields to its own id while another is runnable keeps the
      processor and is no longer the head of the running list. */
  lemma YieldToSelf<T, L>(s: State<T, L>, tid: nat)
    requires Inv(s) && |Q(s, s.running)| > 1
    ensures var s' := Step(s, Yield(tid, Some(s.self))).0;
      && s'.self == s.self
      && Q(s', s'.running) == Q(s, s.running)[1..] + [s.self]
      && Q(s', s'.running)[0] != s.self
  {
    hide Base;
    hide Without;
    hide SetRunnable;
    Self(s);
    SetRunnableBase(s, s.self);
    HeadAwake(s);
  }

  /** This can happen: right after boot and one thread_fork. */
  lemma YieldToSelfReachable<T, L>(self: T, idle: T, child: T, running: L, sleeping: L, waiting: L)
    requires running != sleeping && sleeping != waiting && running != waiting && child != self && child != idle
    ensures var s := Step(Boot(self, idle, running, sleeping, waiting), Spawn(child, waiting)).0;
      Inv(s) && s.self == self && Q(s, s.running) == [self, child]
  {
    var s := Boot(self, idle, running, sleeping, waiting);
    BootInv(self, idle, running, sleeping, waiting);
    StepExact(s, Spawn(child, waiting));
    SpawnBase(s, child, waiting);
    var e := Enrolled(s, child, waiting);
    assert Q(e, running) == [self];
    WithoutNone([self], child);
    hide Base;
    hide SetRunnable;
    SetRunnableBase(e, child);
  }

  /** Idle alone that goes to sleep leaves the running list empty, and the next call
      panics. */
  lemma IdleAloneSleeps<T, L>(s: State<T, L>, n: nat, op: Op<T, L>)
    requires Inv(s) && Alone(s) && n > 0 && !op.Tick?
    ensures var s' := Step(s, Sleep(n)).0;
      s'.self == s.idle && Q(s', s'.running) == [] && Step(s', op).1 == Panic
  {
    hide Base;
    hide Without;
    hide SetSleeping;
    Self(s);
    IdleThere(s);
    SetSleepingEffect(s, s.self, n);
  }

  /** One call after boot: the first thread blocks, and idle is alone. */
  lemma IdleAloneReachable<T, L>(self: T, idle: T, running: L, sleeping: L, waiting: L)
    requires running != sleeping && sleeping != waiting && running != waiting && self != idle
    ensures var s := Boot(self, idle, running, sleeping, waiting);
      && Inv(s) && Safe(s, Deschedule(0))
      && var s' := Step(s, Deschedule(0)).0;
      Inv(s') && Alone(s')
  {
    hide Base;
    hide Step;
    hide Boot;
    var s := Boot(self, idle, running, sleeping, waiting);
    BootInv(self, idle, running, sleeping, waiting);
    BootFacts(self, idle, running, sleeping, waiting);
    StepExact(s, Deschedule(0));
    CallExact(s, Deschedule(0));
    StepClock(s, Deschedule(0));
  }

  lemma BootFacts<T, L>(self: T, idle: T, running: L, sleeping: L, waiting: L)
    ensures var s := Boot(self, idle, running, sleeping, waiting);
      s.self == self && s.idle == idle && s.running == running
  {
  }

  // ----- who runs next, and where the caller goes -----

  /** The running list without the caller, or idle. */
  function Rest<T>(q: seq<T>, idle: T): seq<T> {
    if |q| > 1 then q[1..] else [idle]
  }

  /** The running list after a call: the thread at its head has the processor. */
  function RunningAfter<T, L>(s: State<T, L>, op: Op<T, L>): seq<T> {
    var q := Q(s, s.running);
    if q == [] then []
    else
      match op
      case Deschedule(flag) => if flag == 0 then Rest(q, s.idle) else q
      case Sleep(n) => if n > 0 then Rest(q, s.idle) else q
      case Wait => Rest(q, s.idle)
      case Vanish(waiters) =>
        if waiters.Some? && Q(s, waiters.value) != [] then [Q(s, waiters.value)[0]] + q[1..] else Rest(q, s.idle)
      case Yield(tid, found) =>
        if tid < 0 then q[1..] + [q[0]]
        else if found.None? || !Block(s, found.value).tag.Running? || found.value == q[0] then q
        else [found.value] + Without(q[1..], found.value) + [q[0]]
      case MakeRunnable(tid, found) =>
        if tid >= 0 && found.Some? && Block(s, found.value).tag.Blocked? then [found.value] + q else q
      case Spawn(child, _) => q + [child]
      case Tick(_) => q
  }

  /** What the call makes of its caller. */
  function CallerAfter<T, L>(s: State<T, L>, op: Op<T, L>): Tag {
    match op
    case Deschedule(flag) => if flag == 0 then Blocked else Running
    case Sleep(n) => if n > 0 then Sleeping else Running
    case Wait => Waiting
    case Vanish(_) => Zombie
    case _ => Running
  }

  /** A call that keeps to the rules: the running list is as RunningAfter says, its
      head has the processor, and the caller is as CallerAfter says. */
  ghost predicate Called<T, L>(s: State<T, L>, op: Op<T, L>, s': State<T, L>) {
    && Q(s', s.running) == RunningAfter(s, op)
    && s'.running == s.running && RunningAfter(s, op) != [] && s'.self == RunningAfter(s, op)[0]
    && s.self in s'.tcb && s'.tcb[s.self].tag == CallerAfter(s, op)
    && (op.Vanish? ==> s'.gone == s.gone + {s.self})
    && (op.Vanish? && op.waiters.Some? && Q(s, op.waiters.value) != [] ==>
          Q(s', op.waiters.value) == Q(s, op.waiters.value)[1..])
  }

  /** The caller has left the running list for good or for a while. */
  lemma GiveWayCalled<T, L>(s: State<T, L>, s1: State<T, L>)
    requires Inv(s) && Base(s1) && s1.self == s.self && s1.idle == s.idle && s1.running == s.running && !Alone(s)
    requires Q(s1, s1.running) == Q(s, s.running)[1..]
    requires s.self in s1.tcb
    ensures var s' := Switch(s1, s.self, Next(s1));
      && Q(s', s.running) == Rest(Q(s, s.running), s.idle) && s'.running == s.running
      && s'.self == Rest(Q(s, s.running), s.idle)[0]
      && s.self in s'.tcb && s'.tcb[s.self] == s1.tcb[s.self] && s'.gone == s1.gone
  {
    hide Base;
    hide Switch;
    HeadAwake(s);
    IdleThere(s1);
    var other, q := Next(s1), Q(s1, s1.running);
    if q != [] {
      HeadAwake(s1);
    }
    hide Without;
    assert other != s.self;
    SwitchInv(s1, s.self, other);
    WithoutNone<T>([], other);
    assert q != [] ==> [other] + q[1..] == q;
  }

  lemma BlockingCalled<T, L>(s: State<T, L>, op: Op<T, L>)
    requires Inv(s) && Safe(s, op) && (op.Deschedule? || op.Sleep? || op.Wait?)
    ensures Called(s, op, Step(s, op).0)
  {
    hide Base;
    hide Switch;
    hide Without;
    hide SetBlocked;
    hide SetSleeping;
    hide SetWaiting;
    Self(s);
    IdleThere(s);
    match op
    case Deschedule(flag) =>
      if flag == 0 {
        SetBlockedBase(s, s.self);
        GiveWayCalled(s, SetBlocked(s, s.self));
      }
    case Sleep(n) =>
      if n > 0 {
        SetSleepingBase(s, s.self, n);
        SetSleepingEffect(s, s.self, n);
        GiveWayCalled(s, SetSleeping(s, s.self, n));
      }
    case Wait =>
      SetWaitingBase(s, s.self);
      HomeApart(s, s.self);
      GiveWayCalled(s, SetWaiting(s, s.self));
  }

  lemma YieldCalled<T, L>(s: State<T, L>, tid: int, found: Option<T>)
    requires Inv(s) && Legal(s, Yield(tid, found)) && Safe(s, Yield(tid, found))
    ensures Called(s, Yield(tid, found), YieldStep(s, s.self, tid, found).0)
  {
    hide Base;
    hide Switch;
    hide SetRunnable;
    hide Without;
    Self(s);
    IdleThere(s);
    HeadAwake(s);
    SetRunnableBase(s, s.self);
    var s1, q := SetRunnable(s, s.self), Q(s, s.running);
    assert Q(s1, s.running) == q[1..] + [s.self];
    if tid < 0 {
      HeadAwake(s1);
      SwitchSame(s1, s.self);
      if Next(s1) != s.self {
        SwitchInv(s1, s.self, Next(s1));
      }
    } else if found.Some? && s.tcb[found.value].tag.Running? {
      SwitchSame(s1, s.self);
      if found.value != s.self {
        Alive(s1, found.value);
        SwitchInv(s1, s.self, found.value);
        WithoutBefore(q[1..], s.self, found.value);
      }
    }
  }

  lemma {:induction false} WithoutBefore<T>(q: seq<T>, last: T, x: T)
    requires x != last
    ensures Without(q + [last], x) == Without(q, x) + [last]
  {
    if q != [] {
      assert (q + [last])[1..] == q[1..] + [last];
      WithoutBefore(q[1..], last, x);
    }
  }

  lemma MakeRunnableCalled<T, L>(s: State<T, L>, tid: int, found: Option<T>)
    requires Inv(s) && Legal(s, MakeRunnable(tid, found))
    ensures Called(s, MakeRunnable(tid, found), MakeRunnableStep(s, s.self, tid, found).0)
    ensures MakeRunnableStep(s, s.self, tid, found).1 == Done <==> tid >= 0 && found.Some? && s.tcb[found.value].tag.Blocked?
  {
    hide Base;
    hide Switch;
    hide SetRunnable;
    hide Without;
    Self(s);
    IdleThere(s);
    if tid >= 0 && found.Some? && s.tcb[found.value].tag.Blocked? {
      var t, q := found.value, Q(s, s.running);
      Alive(s, t);
      NotListed(s, t, s.running);
      WithoutNone(q, t);
      SetRunnableBase(s, t);
      var s1 := SetRunnable(s, t);
      SwitchInv(s1, s.self, t);
      WithoutAt(q, t, []);
      assert q + [t] + [] == q + [t] && q + [] == q;
    }
  }

  /** A blocked thread is in no list. */
  lemma NotListed<T, L>(s: State<T, L>, t: T, l: L)
    requires Base(s) && t in s.tcb && (s.tcb[t].tag.Blocked? || s.tcb[t].tag.Zombie?) && l in s.queue
    ensures t !in Q(s, l)
  {
    assert ThreadOk(s, t) && ListOk(s, l);
  }

  lemma VanishCalled<T, L>(s: State<T, L>, waiters: Option<L>)
    requires Inv(s) && Legal(s, Vanish(waiters)) && s.self != s.idle
    ensures Called(s, Vanish(waiters), VanishStep(s, s.self, waiters).0)
  {
    hide Base;
    hide Switch;
    hide SetRunnable;
    hide Unset;
    hide Without;
    Self(s);
    IdleThere(s);
    HeadAwake(s);
    UnsetBase(s, s.self);
    UnsetEffect(s, s.self);
    var u := Unset(s, s.self);
    var s1 := u.(gone := s.gone + {s.self});
    GoneBase(u, s.self);
    if waiters.Some? {
      OnlyRunnable(s, waiters.value);
      WithoutNone(Q(s, waiters.value), s.self);
    }
    if waiters.Some? && Q(s1, waiters.value) != [] {
      var t, q := Q(s1, waiters.value)[0], Q(s1, s1.running);
      Member(s1, waiters.value, t);
      NotBoth(s1, waiters.value, t);
      WithoutFirst(s1, waiters.value);
      WithoutNone(q, t);
      SetRunnableBase(s1, t);
      var s2 := SetRunnable(s1, t);
      SwitchInv(s2, s.self, t);
      WithoutAt(q, t, []);
      assert q + [t] + [] == q + [t] && q + [] == q;
    } else {
      GiveWayCalled(s, s1);
    }
  }

  /** The thread that has the processor is in no waiting list. */
  lemma OnlyRunnable<T, L>(s: State<T, L>, l: L)
    requires Inv(s) && l in s.queue && l != s.running
    ensures s.self !in Q(s, l)
  {
    Member(s, s.running, s.self);
    assert ListOk(s, l);
  }

  lemma WithoutFirst<T, L>(s: State<T, L>, l: L)
    requires Base(s) && l in s.queue && Q(s, l) != []
    ensures var q := Q(s, l);
      Without(q, q[0]) == q[1..] && Without(q[1..], q[0]) == q[1..]
  {
    var q := Q(s, l);
    Distinct(s, l);
    assert q[0] !in q[1..];
    WithoutNone(q[1..], q[0]);
  }

  lemma NotBoth<T, L>(s: State<T, L>, l: L, t: T)
    requires Base(s) && l in s.queue && l != s.running && t in Q(s, l)
    ensures t !in Q(s, s.running)
  {
    assert ListOk(s, l) && ListOk(s, s.running);
  }

  lemma SpawnCalled<T, L>(s: State<T, L>, child: T, home: L)
    requires Inv(s) && Legal(s, Spawn(child, home))
    ensures Called(s, Spawn(child, home), SpawnStep(s, child, home).0)
  {
    var e, q := Enrolled(s, child, home), Q(s, s.running);
    hide Base;
    hide SetRunnable;
    hide Without;
    Self(s);
    IdleThere(s);
    SpawnBase(s, child, home);
    NotListed(e, child, e.running);
    WithoutNone(q, child);
    SetRunnableBase(e, child);
  }

  /** Every call that keeps to the rules hands the processor to exactly the thread
      it should and leaves its caller where it should be. */
  lemma CallExact<T, L>(s: State<T, L>, op: Op<T, L>)
    requires Inv(s) && Legal(s, op) && Safe(s, op) && !op.Tick?
    ensures Called(s, op, Step(s, op).0)
  {
    hide Base;
    hide Called;
    match op
    case Deschedule(_) => BlockingCalled(s, op);
    case Yield(tid, found) => YieldCalled(s, tid, found);
    case MakeRunnable(tid, found) => MakeRunnableCalled(s, tid, found);
    case Sleep(_) => BlockingCalled(s, op);
    case Wait => BlockingCalled(s, op);
    case Vanish(waiters) => VanishCalled(s, waiters);
    case Spawn(child, home) => SpawnCalled(s, child, home);
  }

  // ----- idle outside its role -----

  /** After boot idle makes a thread and sleeps: it is asleep, and the thread is the
      only one in the running list. */
  lemma IdleAsleepReachable<T, L>(idle: T, child: T, running: L, sleeping: L, waiting: L, n: nat)
    requires running != sleeping && sleeping != waiting && running != waiting && child != idle && n > 0
    ensures var s := Step(Boot(idle, idle, running, sleeping, waiting), Spawn(child, waiting)).0;
      && Inv(s) && Safe(s, Sleep(n))
      && var s' := Step(s, Sleep(n)).0;
      && Inv(s') && s'.idle == idle && Q(s', s'.running) == [child] && s'.ticks < s'.tcb[idle].wake
      && s'.tcb[idle].tag.Sleeping? && Safe(s', Deschedule(0)) && Empties(s', Deschedule(0))
  {
    hide Base;
    hide Step;
    hide Boot;
    var s0 := Boot(idle, idle, running, sleeping, waiting);
    BootInv(idle, idle, running, sleeping, waiting);
    IdleBoots(idle, child, running, sleeping, waiting);
    StepExact(s0, Spawn(child, waiting));
    CallExact(s0, Spawn(child, waiting));
    StepClock(s0, Spawn(child, waiting));
    var s := Step(s0, Spawn(child, waiting)).0;
    assert Q(s, running) == [idle] + [child];
    hide Q;
    IdleSleeps(s, child, n);
  }

  lemma IdleBoots<T, L>(idle: T, child: T, running: L, sleeping: L, waiting: L)
    requires running != sleeping && sleeping != waiting && running != waiting && child != idle
    ensures var s := Boot(idle, idle, running, sleeping, waiting);
      Legal(s, Spawn(child, waiting)) && s.self == idle && s.idle == idle && s.running == running && Q(s, running) == [idle]
  {
  }

  /** Idle goes to sleep while one other thread is runnable. */
  lemma IdleSleeps<T, L>(s: State<T, L>, child: T, n: nat)
    requires Inv(s) && s.self == s.idle && Q(s, s.running) == [s.idle, child] && child != s.idle && n > 0
    ensures Safe(s, Sleep(n))
    ensures var s' := Step(s, Sleep(n)).0;
      && Inv(s') && s'.idle == s.idle && Q(s', s'.running) == [child]
      && s.idle in s'.tcb && s'.ticks < s'.tcb[s.idle].wake && s'.tcb[s.idle].tag.Sleeping?
      && Safe(s', Deschedule(0)) && Empties(s', Deschedule(0))
  {
    hide Base;
    hide Step;
    StepExact(s, Sleep(n));
    CallExact(s, Sleep(n));
    StepClock(s, Sleep(n));
    SleeperWake(s, n);
  }

  /** The wake time of a caller of sleep. */
  lemma SleeperWake<T, L>(s: State<T, L>, n: nat)
    requires Inv(s) && Safe(s, Sleep(n)) && n > 0
    ensures s.self in Step(s, Sleep(n)).0.tcb && Step(s, Sleep(n)).0.tcb[s.self].wake == s.ticks + n
  {
    hide Base;
    hide Without;
    hide SetSleeping;
    hide Switch;
    Self(s);
    IdleThere(s);
    SetSleepingBase(s, s.self, n);
    SetSleepingEffect(s, s.self, n);
    GiveWayCalled(s, SetSleeping(s, s.self, n));
  }

  /** If idle vanishes and the only other thread blocks, the processor goes to idle,
      which has vanished. */
  lemma VanishedIdleRuns<T, L>(s: State<T, L>, t: T)
    requires Inv(s) && s.self == s.idle && Q(s, s.running) == [s.idle, t]
    ensures var s1 := Step(s, Vanish(None)).0;
      var s2 := Step(s1, Deschedule(0)).0;
      s2.self == s.idle && s.idle in s2.gone
  {
    hide Base;
    hide Unset;
    hide Switch;
    hide SetBlocked;
    SliceIdle(s);
    HeadAwake(s);
    assert t == Q(s, s.running)[1] && t != s.idle;
    var u := Unset(s, s.idle);
    var s1' := Switch(u, s.idle, Next(u));
    var gone := s.gone + {s.idle};
    SwitchIgnoresGone(u, s.idle, Next(u), gone);
    UnsetGone(s, s.idle);
    assert Q(s1', s.running) == [t];
    CallExact(s1', Deschedule(0));
    DescheduleIgnoresGone(s1', t, gone);
  }

  lemma UnsetGone<T, L>(s: State<T, L>, t: T)
    ensures Unset(s, t).gone == s.gone && Unset(s, t).running == s.running && Unset(s, t).idle == s.idle
  {
  }

  /** From boot: idle makes a thread and vanishes, the thread blocks, and the vanished
      idle has the processor. */
  lemma VanishedIdleReachable<T, L>(idle: T, child: T, running: L, sleeping: L, waiting: L)
    requires running != sleeping && sleeping != waiting && running != waiting && child != idle
    ensures var s := Step(Boot(idle, idle, running, sleeping, waiting), Spawn(child, waiting)).0;
      var s1 := Step(s, Vanish(None)).0;
      var s2 := Step(s1, Deschedule(0)).0;
      Inv(s) && s2.self == idle && idle in s2.gone
  {
    hide Base;
    hide Step;
    hide Boot;
    var s0 := Boot(idle, idle, running, sleeping, waiting);
    BootInv(idle, idle, running, sleeping, waiting);
    IdleBoots(idle, child, running, sleeping, waiting);
    StepExact(s0, Spawn(child, waiting));
    CallExact(s0, Spawn(child, waiting));
    StepClock(s0, Spawn(child, waiting));
    var s := Step(s0, Spawn(child, waiting)).0;
    assert Q(s, running) == [idle] + [child];
    VanishedIdleRuns(s, child);
  }

  lemma SwitchIgnoresGone<T, L>(s: State<T, L>, self: T, other: T, gone: set<T>)
    ensures Switch(s.(gone := gone), self, other) == Switch(s, self, other).(gone := gone)
  {
    hide Without;
  }

  lemma DescheduleIgnoresGone<T, L>(s: State<T, L>, self: T, gone: set<T>)
    ensures DescheduleStep(s.(gone := gone), self, 0).0 == DescheduleStep(s, self, 0).0.(gone := gone)
  {
    hide SetBlocked;
    hide Switch;
    BlockIgnoresGone(s, self, gone);
    var s1 := SetBlocked(s, self);
    SwitchIgnoresGone(s1, self, Next(s1), gone);
  }

  lemma BlockIgnoresGone<T, L>(s: State<T, L>, t: T, gone: set<T>)
    ensures SetBlocked(s.(gone := gone), t) == SetBlocked(s, t).(gone := gone)
  {
    hide Without;
  }
}

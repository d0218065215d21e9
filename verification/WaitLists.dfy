/** The waiting lists of the scheduler change the way `WaitProtocol` has it: wait puts
    its caller at the end of the list of its process, the last vanish takes the first
    thread off the list it is given, and nothing else touches them. */
module WaitLists {
  import opened Collections
  import opened Scheduler
  import opened SchedulerRuns

  /** A waiting list after a step. */
  function After<T, L>(s: State<T, L>, op: Op<T, L>, l: L): seq<T> {
    match op
    case Wait => if s.self in s.home && s.home[s.self] == l then Q(s, l) + [s.self] else Q(s, l)
    case Vanish(waiters) => if waiters == Some(l) && Q(s, l) != [] then Q(s, l)[1..] else Q(s, l)
    case _ => Q(s, l)
  }

  ghost predicate WaitList<T, L>(s: State<T, L>, l: L) {
    l in s.queue && l != s.running && l != s.sleeping
  }

  /** Same lists, and list `l` is what it was. */
  ghost predicate Kept<T, L>(s: State<T, L>, s': State<T, L>, l: L) {
    s'.running == s.running && s'.sleeping == s.sleeping && l in s'.queue && Q(s', l) == Q(s, l)
  }

  lemma Absent<T, L>(s: State<T, L>, l: L, t: T)
    requires Base(s) && l in s.queue && t in s.tcb && s.tcb[t].list != Some(l)
    ensures t !in Q(s, l) && Without(Q(s, l), t) == Q(s, l)
  {
    assert ListOk(s, l);
    WithoutNone(Q(s, l), t);
  }

  lemma RunnableKeeps<T, L>(s: State<T, L>, t: T, l: L)
    requires Base(s) && WaitList(s, l) && t in s.tcb && t !in s.gone && s.tcb[t].list != Some(l)
    ensures Kept(s, SetRunnable(s, t), l)
  {
    hide Base;
    hide SetRunnable;
    hide Without;
    SetRunnableBase(s, t);
    Absent(s, l, t);
  }

  lemma SwitchKeeps<T, L>(s: State<T, L>, self: T, other: T, l: L)
    requires Base(s) && WaitList(s, l) && other in s.tcb && other !in s.gone && s.tcb[other].list != Some(l)
    ensures Kept(s, Switch(s, self, other), l)
  {
    hide Base;
    hide SetRunning;
    hide Without;
    SetRunningBase(s, other);
    Absent(s, l, other);
  }

  /** The next thread takes over. */
  lemma NextKeeps<T, L>(s: State<T, L>, self: T, l: L)
    requires Base(s) && WaitList(s, l) && (Q(s, s.running) == [] && s.idle in Q(s, l) ==> self == s.idle)
    ensures Kept(s, Switch(s, self, Next(s)), l)
  {
    IdleThere(s);
    if Q(s, s.running) != [] {
      Member(s, s.running, Next(s));
      SwitchKeeps(s, self, Next(s), l);
    } else if s.idle != self {
      assert ThreadOk(s, s.idle);
      SwitchKeeps(s, self, s.idle, l);
    }
  }

  lemma BlockingLists<T, L>(s: State<T, L>, op: Op<T, L>, l: L)
    requires Inv(s) && WaitList(s, l) && (s.idle in Q(s, l) ==> !Empties(s, op))
    requires (op.Deschedule? && op.flag == 0) || (op.Sleep? && op.n > 0)
    ensures Q(Step(s, op).0, l) == Q(s, l) && l in Step(s, op).0.queue
  {
    hide Base;
    hide SetBlocked;
    hide SetSleeping;
    hide Switch;
    hide Without;
    Self(s);
    IdleThere(s);
    SelfList(s, l);
    if op.Deschedule? {
      SetBlockedBase(s, s.self);
      NextKeeps(SetBlocked(s, s.self), s.self, l);
    } else {
      SetSleepingBase(s, s.self, op.n);
      SetSleepingEffect(s, s.self, op.n);
      NextKeeps(SetSleeping(s, s.self, op.n), s.self, l);
    }
  }

  /** The caller is in the running list and in no other. */
  lemma SelfList<T, L>(s: State<T, L>, l: L)
    requires Inv(s) && WaitList(s, l)
    ensures Without(Q(s, l), s.self) == Q(s, l) && s.self !in Q(s, l)
  {
    Member(s, s.running, s.self);
    Absent(s, l, s.self);
  }

  lemma WaitCallLists<T, L>(s: State<T, L>, l: L)
    requires Inv(s) && WaitList(s, l) && (s.idle in Q(s, l) ==> !Empties(s, Wait))
    ensures Q(WaitStep(s, s.self).0, l) == After(s, Wait, l) && l in WaitStep(s, s.self).0.queue
  {
    hide Base;
    hide SetWaiting;
    hide Switch;
    hide Without;
    Self(s);
    IdleThere(s);
    SelfList(s, l);
    SetWaitingBase(s, s.self);
    HomeList(s, s.self);
    NextKeeps(SetWaiting(s, s.self), s.self, l);
  }

  lemma HomeList<T, L>(s: State<T, L>, t: T)
    requires Base(s) && t in s.tcb
    ensures t in s.home && WaitList(s, s.home[t])
  {
    assert ThreadOk(s, t);
  }

  lemma YieldLists<T, L>(s: State<T, L>, tid: int, found: Option<T>, l: L)
    requires Inv(s) && Legal(s, Yield(tid, found)) && WaitList(s, l)
    ensures Q(YieldStep(s, s.self, tid, found).0, l) == Q(s, l) && l in YieldStep(s, s.self, tid, found).0.queue
  {
    hide Base;
    hide SetRunnable;
    hide Switch;
    hide Without;
    Self(s);
    IdleThere(s);
    SetRunnableBase(s, s.self);
    SelfList(s, l);
    var s1 := SetRunnable(s, s.self);
    if tid >= 0 && found.Some? && s.tcb[found.value].tag.Running? {
      Runs(s1, found.value);
      SwitchKeeps(s1, s.self, found.value, l);
    } else if tid < 0 {
      NextKeeps(s1, s.self, l);
    }
  }

  lemma Runs<T, L>(s: State<T, L>, t: T)
    requires Base(s) && t in s.tcb && s.tcb[t].tag.Running?
    ensures s.tcb[t].list == Some(s.running) && t !in s.gone
  {
    assert ThreadOk(s, t);
  }

  lemma MakeRunnableLists<T, L>(s: State<T, L>, tid: int, found: Option<T>, l: L)
    requires Inv(s) && Legal(s, MakeRunnable(tid, found)) && WaitList(s, l)
    ensures Q(MakeRunnableStep(s, s.self, tid, found).0, l) == Q(s, l) && l in MakeRunnableStep(s, s.self, tid, found).0.queue
  {
    if tid >= 0 && found.Some? && s.tcb[found.value].tag.Blocked? {
      assert ThreadOk(s, found.value);
      hide Base;
      hide SetRunnable;
      hide Switch;
      hide Without;
      SetRunnableBase(s, found.value);
      RunnableKeeps(s, found.value, l);
      SwitchKeeps(SetRunnable(s, found.value), s.self, found.value, l);
    }
  }

  lemma VanishLists<T, L>(s: State<T, L>, waiters: Option<L>, l: L)
    requires Inv(s) && Legal(s, Vanish(waiters)) && s.self != s.idle && WaitList(s, l)
    requires s.idle in Q(s, l) ==> !Empties(s, Vanish(waiters))
    ensures Q(VanishStep(s, s.self, waiters).0, l) == After(s, Vanish(waiters), l) && l in VanishStep(s, s.self, waiters).0.queue
  {
    hide Base;
    hide Unset;
    hide SetRunnable;
    hide Switch;
    hide Without;
    var u := Unset(s, s.self);
    var s1 := u.(gone := s.gone + {s.self});
    Self(s);
    IdleThere(s);
    SelfList(s, l);
    UnsetBase(s, s.self);
    UnsetEffect(s, s.self);
    GoneBase(u, s.self);
    if waiters.Some? && Q(s1, waiters.value) != [] {
      SelfList(s, waiters.value);
      WokenLists(s1, s.self, waiters.value, l);
    } else {
      if waiters.Some? {
        SelfList(s, waiters.value);
      }
      NextKeeps(s1, s.self, l);
    }
  }

  /** The first thread of `w` is made runnable and gets the processor. */
  lemma WokenLists<T, L>(s: State<T, L>, self: T, w: L, l: L)
    requires Base(s) && WaitList(s, w) && WaitList(s, l) && Q(s, w) != []
    ensures var s', t := Switch(SetRunnable(s, Q(s, w)[0]), self, Q(s, w)[0]), Q(s, w)[0];
      Q(s', l) == (if l == w then Q(s, l)[1..] else Q(s, l)) && l in s'.queue
  {
    hide Base;
    hide SetRunnable;
    hide Switch;
    hide Without;
    var t := Q(s, w)[0];
    Member(s, w, t);
    FirstGone(s, w);
    SetRunnableBase(s, t);
    if l != w {
      Absent(s, l, t);
    }
    SwitchKeeps(SetRunnable(s, t), self, t, l);
  }

  lemma FirstGone<T, L>(s: State<T, L>, w: L)
    requires Base(s) && w in s.queue && Q(s, w) != []
    ensures Without(Q(s, w), Q(s, w)[0]) == Q(s, w)[1..]
  {
    Distinct(s, w);
  }

  lemma SpawnLists<T, L>(s: State<T, L>, child: T, home: L, l: L)
    requires Inv(s) && Legal(s, Spawn(child, home)) && WaitList(s, l)
    ensures Q(SpawnStep(s, child, home).0, l) == Q(s, l) && l in SpawnStep(s, child, home).0.queue
  {
    hide Base;
    hide SetRunnable;
    hide Without;
    SpawnBase(s, child, home);
    RunnableKeeps(Enrolled(s, child, home), child, l);
  }

  // ----- the timer -----

  lemma {:induction false} WakeLists<T, L>(s: State<T, L>, n: nat, l: L)
    requires Base(s) && WaitList(s, l)
    ensures Base(WakeLoop(s, n)) && Kept(s, WakeLoop(s, n), l)
    decreases n
  {
    hide Base;
    hide SetRunnable;
    hide Without;
    if n > 0 && Due(s) {
      var t := Q(s, s.sleeping)[0];
      IdleThere(s);
      Member(s, s.sleeping, t);
      SetRunnableBase(s, t);
      RunnableKeeps(s, t, l);
      WakeLists(SetRunnable(s, t), n - 1, l);
    }
  }

  lemma SliceLists<T, L>(s: State<T, L>, awoken: bool, l: L)
    requires Inv(s) && WaitList(s, l) && (awoken ==> |Q(s, s.running)| > 1)
    ensures Kept(s, Slice(s, awoken), l)
  {
    hide Base;
    hide SetRunnable;
    hide Unset;
    hide Switch;
    hide Without;
    Self(s);
    SelfList(s, l);
    IdleThere(s);
    if s.self != s.idle {
      SetRunnableBase(s, s.self);
      NextKeeps(SetRunnable(s, s.self), s.self, l);
    } else if |Q(s, s.running)| > 1 {
      UnsetBase(s, s.self);
      UnsetEffect(s, s.self);
      NextKeeps(Unset(s, s.self), s.self, l);
    }
  }

  lemma TickLists<T, L>(s: State<T, L>, noSwitch: bool, l: L)
    requires Inv(s) && WaitList(s, l)
    ensures Q(TickStep(s, noSwitch).0, l) == Q(s, l) && l in TickStep(s, noSwitch).0.queue
  {
    hide Base;
    hide Slice;
    hide WakeLoop;
    hide Awoken;
    hide Due;
    if !noSwitch {
      var s1 := s.(ticks := s.ticks + 1);
      TicksBase(s, s.ticks + 1);
      WakeLists(s1, |Q(s1, s1.sleeping)|, l);
      var k := WakeExact(s1);
      var s2 := WakeLoop(s1, |Q(s1, s1.sleeping)|);
      AwokenInv(s1, s2, k);
      SliceLists(s2, Due(s1), l);
    }
  }

  /** Every step of the scheduler, on every waiting list: unless idle is in it and is
      switched to because nobody else is left. */
  lemma StepLists<T, L>(s: State<T, L>, op: Op<T, L>, l: L)
    requires Inv(s) && Legal(s, op) && (op.Vanish? ==> s.self != s.idle)
    requires WaitList(s, l) && (s.idle in Q(s, l) ==> !Empties(s, op))
    ensures Q(Step(s, op).0, l) == After(s, op, l) && l in Step(s, op).0.queue
  {
    hide Base;
    hide YieldStep;
    hide MakeRunnableStep;
    hide WaitStep;
    hide VanishStep;
    hide SpawnStep;
    hide TickStep;
    match op
    case Deschedule(flag) =>
      if flag == 0 {
        BlockingLists(s, op, l);
      }
    case Yield(tid, found) => YieldLists(s, tid, found, l);
    case MakeRunnable(tid, found) => MakeRunnableLists(s, tid, found, l);
    case Sleep(n) =>
      if n > 0 {
        BlockingLists(s, op, l);
      }
    case Wait => WaitCallLists(s, l);
    case Vanish(waiters) => VanishLists(s, waiters, l);
    case Spawn(child, home) => SpawnLists(s, child, home, l);
    case Tick(noSwitch) => TickLists(s, noSwitch, l);
  }
}

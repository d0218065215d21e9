/** The scheduler: thread states and lists (kern/prog/thread.c), the timer
    (kern/drivers/timer.c) and the calls that give the processor away
    (kern/syscall/management.c, kern/syscall/lifecycle.c).

    A call or a tick is one step.  `T` are the threads and `L` the lists: the
    running list, the sleeping list and a waiting list per process. */
module Scheduler {
  import opened Collections
  import opened ThreadList

  datatype Tcb<L> = Tcb(tag: Tag, wake: nat, list: Option<L>)

  /** `home` is the waiting list of a thread's process, `self` the thread that has
      the processor and `gone` those that have vanished. */
  datatype State<T(==), L(==)> = State(
    tcb: map<T, Tcb<L>>, queue: map<L, seq<T>>, running: L, sleeping: L, home: map<T, L>,
    ticks: nat, self: T, idle: T, gone: set<T>)

  datatype Status = Done | NotRunnable | InvalidTid | NotBlocked | NegativeSleep | Panic

  function Q<T, L>(s: State<T, L>, l: L): seq<T> {
    if l in s.queue then s.queue[l] else []
  }

  function Block<T, L>(s: State<T, L>, t: T): Tcb<L> {
    if t in s.tcb then s.tcb[t] else Tcb(Zombie, 0, None)
  }

  function WakesOf<T, L>(s: State<T, L>, q: seq<T>): (r: seq<nat>)
    ensures |r| == |q| && forall i :: 0 <= i < |q| ==> r[i] == Block(s, q[i]).wake
  {
    seq(|q|, i requires 0 <= i < |q| => Block(s, q[i]).wake)
  }

  // ----- the setters -----

  /** unset_state */
  function Unset<T, L>(s: State<T, L>, t: T): State<T, L> {
    var e := Block(s, t);
    var queue := if e.list.None? then s.queue else s.queue[e.list.value := Without(Q(s, e.list.value), t)];
    s.(queue := queue, tcb := s.tcb[t := e.(tag := Zombie, list := None)])
  }

  /** Thread `t`, which is in no list, becomes a member of `l`, which is then `q`. */
  function Place<T, L>(s: State<T, L>, t: T, l: L, q: seq<T>, tag: Tag): State<T, L> {
    s.(queue := s.queue[l := q], tcb := s.tcb[t := Block(s, t).(tag := tag, list := Some(l))])
  }

  function SetRunning<T, L>(s: State<T, L>, t: T): State<T, L> {
    var u := Unset(s, t);
    Place(u, t, u.running, [t] + Q(u, u.running), Running)
  }

  function SetRunnable<T, L>(s: State<T, L>, t: T): State<T, L> {
    var u := Unset(s, t);
    Place(u, t, u.running, Q(u, u.running) + [t], Running)
  }

  function SetBlocked<T, L>(s: State<T, L>, t: T): State<T, L> {
    var u := Unset(s, t);
    u.(tcb := u.tcb[t := Block(u, t).(tag := Blocked)])
  }

  function SetWake<T, L>(s: State<T, L>, t: T, wake: nat): State<T, L> {
    s.(tcb := s.tcb[t := Block(s, t).(wake := wake)])
  }

  /** Where set_sleeping puts a thread whose wake time is set. */
  function Bed<T, L>(s: State<T, L>, t: T): seq<T> {
    var q := Q(s, s.sleeping);
    Inserted(q, Slot(WakesOf(s, q), Block(s, t).wake), t)
  }

  function SetSleeping<T, L>(s: State<T, L>, t: T, n: nat): State<T, L> {
    var due := SetWake(Unset(s, t), t, s.ticks + n);
    Place(due, t, due.sleeping, Bed(due, t), Sleeping)
  }

  function SetWaiting<T, L>(s: State<T, L>, t: T): State<T, L> {
    if t !in s.home then s
    else
      var u, l := Unset(s, t), s.home[t];
      Place(u, t, l, Q(u, l) + [t], Waiting)
  }

  // ----- giving the processor away -----

  /** context_switch, and the set_running it ends with. */
  function Switch<T, L>(s: State<T, L>, self: T, other: T): State<T, L> {
    if self == other then s else SetRunning(s, other).(self := other)
  }

  /** The next thread of the running list, or idle. */
  function Next<T, L>(s: State<T, L>): T {
    if Q(s, s.running) == [] then s.idle else Q(s, s.running)[0]
  }

  datatype Op<T, L> =
    | Deschedule(flag: int)
    | Yield(tid: int, found: Option<T>)
    | MakeRunnable(tid: int, found: Option<T>)
    | Sleep(n: int)
    | Wait
    | Vanish(waiters: Option<L>)
    | Spawn(child: T, home: L)
    | Tick(noSwitch: bool)

  function DescheduleStep<T, L>(s: State<T, L>, self: T, flag: int): (State<T, L>, Status) {
    if flag != 0 then (s, Done)
    else
      var s1 := SetBlocked(s, self);
      (Switch(s1, self, Next(s1)), Done)
  }

  /** `found` is what the thread table has for `tid`. */
  function YieldStep<T, L>(s: State<T, L>, self: T, tid: int, found: Option<T>): (State<T, L>, Status) {
    if tid >= 0 && (found.None? || Block(s, found.value).tag != Running) then (s, NotRunnable)
    else
      var s1 := SetRunnable(s, self);
      (Switch(s1, self, if tid >= 0 then found.value else Next(s1)), Done)
  }

  function MakeRunnableStep<T, L>(s: State<T, L>, self: T, tid: int, found: Option<T>): (State<T, L>, Status) {
    if tid < 0 then (s, InvalidTid)
    else if found.None? || Block(s, found.value).tag != Blocked then (s, NotBlocked)
    else (Switch(SetRunnable(s, found.value), self, found.value), Done)
  }

  function SleepStep<T, L>(s: State<T, L>, self: T, n: int): (State<T, L>, Status) {
    if n == 0 then (s, Done)
    else if n < 0 then (s, NegativeSleep)
    else
      var s1 := SetSleeping(s, self, n);
      (Switch(s1, self, Next(s1)), Done)
  }

  /** One round of the loop in wait. */
  function WaitStep<T, L>(s: State<T, L>, self: T): (State<T, L>, Status) {
    var s1 := SetWaiting(s, self);
    (Switch(s1, self, Next(s1)), Done)
  }

  /** `waiters` is the waiting list of the parent if this is the last thread of a
      process that has one. */
  function VanishStep<T, L>(s: State<T, L>, self: T, waiters: Option<L>): (State<T, L>, Status) {
    var s1 := Unset(s, self).(gone := s.gone + {self});
    if waiters.Some? && Q(s1, waiters.value) != [] then
      var waiting := Q(s1, waiters.value)[0];
      (Switch(SetRunnable(s1, waiting), self, waiting), Done)
    else
      (Switch(s1, self, Next(s1)), Done)
  }

  /** create_thread: a thread in no list, of a process with waiting list `home`. */
  function Enrolled<T, L>(s: State<T, L>, child: T, home: L): State<T, L> {
    s.(tcb := s.tcb[child := Tcb(Zombie, 0, None)], home := s.home[child := home], queue := s.queue[home := Q(s, home)])
  }

  /** A thread of a new or of the calling process. */
  function SpawnStep<T, L>(s: State<T, L>, child: T, home: L): (State<T, L>, Status) {
    (SetRunnable(Enrolled(s, child, home), child), Done)
  }

  /** Some sleeper is due. */
  predicate Due<T, L>(s: State<T, L>) {
    var q := Q(s, s.sleeping);
    q != [] && Block(s, q[0]).wake <= s.ticks
  }

  /** The wake-up loop of the timer, at most `n` rounds. */
  function WakeLoop<T, L>(s: State<T, L>, n: nat): State<T, L>
    decreases n
  {
    if n == 0 || !Due(s) then s else WakeLoop(SetRunnable(s, Q(s, s.sleeping)[0]), n - 1)
  }

  /** The rest of the timer: idle gives way if it woke someone or is not alone,
      anybody else goes to the end of the running list. */
  function Slice<T, L>(s: State<T, L>, awoken: bool): State<T, L>
    requires Q(s, s.running) != []
  {
    var self := Q(s, s.running)[0];
    if awoken && self == s.idle then
      var s1 := Unset(s, self);
      Switch(s1, self, Next(s1))
    else if self != s.idle then
      var s1 := SetRunnable(s, self);
      Switch(s1, self, Next(s1))
    else if |Q(s, s.running)| > 1 then
      var s1 := Unset(s, self);
      Switch(s1, self, Next(s1))
    else s
  }

  function TickStep<T, L>(s: State<T, L>, noSwitch: bool): (State<T, L>, Status) {
    var s1 := s.(ticks := s.ticks + 1);
    if noSwitch then (s1, Done)
    else
      var s2 := WakeLoop(s1, |Q(s1, s1.sleeping)|);
      if Q(s2, s2.running) == [] then (s2, Panic) else (Slice(s2, Due(s1)), Done)
  }

  /** A call of the thread at the head of the running list, or a tick. */
  function Step<T, L>(s: State<T, L>, op: Op<T, L>): (State<T, L>, Status) {
    if op.Tick? then TickStep(s, op.noSwitch)
    else if Q(s, s.running) == [] then (s, Panic)
    else
      var self := Q(s, s.running)[0];
      match op
      case Deschedule(flag) => DescheduleStep(s, self, flag)
      case Yield(tid, found) => YieldStep(s, self, tid, found)
      case MakeRunnable(tid, found) => MakeRunnableStep(s, self, tid, found)
      case Sleep(n) => SleepStep(s, self, n)
      case Wait => WaitStep(s, self)
      case Vanish(waiters) => VanishStep(s, self, waiters)
      case Spawn(child, home) => SpawnStep(s, child, home)
      case Tick(_) => (s, Done)
  }

  // ----- the invariant -----

  /** The list that a thread's tag stands for. */
  function ListFor<T, L>(s: State<T, L>, t: T, tag: Tag): Option<L> {
    match tag
    case Running => Some(s.running)
    case Sleeping => Some(s.sleeping)
    case Waiting => if t in s.home then Some(s.home[t]) else None
    case _ => None
  }

  ghost predicate ThreadOk<T, L>(s: State<T, L>, t: T)
    requires t in s.tcb
  {
    var e := s.tcb[t];
    && t in s.home && s.home[t] in s.queue && s.home[t] != s.running && s.home[t] != s.sleeping
    && e.list == ListFor(s, t, e.tag)
    && (e.list.Some? ==> t in Q(s, e.list.value))
    && (t in s.gone ==> e.tag.Zombie?)
  }

  ghost predicate ListOk<T, L>(s: State<T, L>, l: L)
  {
    && NoDuplicates(Q(s, l))
    && forall t :: t in Q(s, l) ==> t in s.tcb && s.tcb[t].list == Some(l)
  }

  /** Each thread is in the one list that its tag stands for, or in none. */
  ghost predicate Base<T, L>(s: State<T, L>) {
    && s.running in s.queue && s.sleeping in s.queue && s.running != s.sleeping
    && s.idle in s.tcb && s.idle !in s.gone
    && (forall t :: t in s.gone ==> t in s.tcb)
    && (forall t :: t in s.tcb ==> ThreadOk(s, t))
    && (forall l :: l in s.queue ==> ListOk(s, l))
    && Sorted(WakesOf(s, Q(s, s.sleeping)))
  }

  /** The head of the running list is the thread that has the processor. */
  ghost predicate Coherence<T, L>(s: State<T, L>) {
    Q(s, s.running) != [] && Q(s, s.running)[0] == s.self
  }

  ghost predicate Inv<T, L>(s: State<T, L>) {
    Base(s) && Coherence(s)
  }

  // ----- what the setters do -----

  /** Thread `t` has left its list; nothing else has changed. */
  lemma UnsetEffect<T, L>(s: State<T, L>, t: T)
    requires Base(s) && t in s.tcb
    ensures var u := Unset(s, t);
      && u == s.(queue := u.queue, tcb := s.tcb[t := s.tcb[t].(tag := Zombie, list := None)])
      && u.queue.Keys == s.queue.Keys
      && forall l :: l in s.queue ==> Q(u, l) == Without(Q(s, l), t)
  {
    forall l | l in s.queue
      ensures s.tcb[t].list != Some(l) ==> Without(s.queue[l], t) == s.queue[l]
    {
      assert ListOk(s, l);
      if s.tcb[t].list != Some(l) {
        assert t !in Q(s, l);
        WithoutNone(s.queue[l], t);
      }
    }
    assert ThreadOk(s, t);
  }

  /** Wake times stay sorted when a thread leaves. */
  lemma WithoutSorted<T, L>(s: State<T, L>, q: seq<T>, t: T)
    requires NoDuplicates(q) && Sorted(WakesOf(s, q))
    ensures Sorted(WakesOf(s, Without(q, t)))
  {
    hide WakesOf;
    hide Without;
    if t in q {
      var k :| 0 <= k < |q| && q[k] == t;
      WithoutPlace(q, k);
      var r := Without(q, t);
      var w, w' := WakesOf(s, q), WakesOf(s, r);
      forall i, j | 0 <= i < j < |r|
        ensures w'[i] <= w'[j]
      {
        var a, b := if i < k then i else i + 1, if j < k then j else j + 1;
        assert r[i] == q[a] && r[j] == q[b];
        assert w[a] <= w[b];
      }
    } else {
      WithoutNone(q, t);
    }
  }

  lemma SameWakes<T, L>(s: State<T, L>, s': State<T, L>, q: seq<T>)
    requires forall t :: t in q ==> Block(s', t).wake == Block(s, t).wake
    ensures WakesOf(s', q) == WakesOf(s, q)
  {
  }

  lemma UnsetListOk<T, L>(s: State<T, L>, t: T, l: L)
    requires Base(s) && t in s.tcb && l in s.queue
    ensures ListOk(Unset(s, t), l)
  {
    UnsetEffect(s, t);
    assert ListOk(s, l);
    WithoutMembers(Q(s, l), t);
    hide Base;
    hide Unset;
    hide Without;
    hide NoDuplicates;
    var u := Unset(s, t);
    assert Q(u, l) == Without(Q(s, l), t);
    assert forall x :: x in Q(u, l) ==> x in Q(s, l) && x != t;
  }

  lemma UnsetThreadOk<T, L>(s: State<T, L>, t: T, x: T)
    requires Base(s) && t in s.tcb && x in s.tcb
    ensures ThreadOk(Unset(s, t), x)
  {
    UnsetEffect(s, t);
    assert ThreadOk(s, x);
    if x != t && s.tcb[x].list.Some? {
      var l := s.tcb[x].list.value;
      assert ListOk(s, l);
      WithoutMembers(Q(s, l), t);
    }
    hide Unset;
    hide Without;
    hide NoDuplicates;
    hide WakesOf;
  }

  lemma UnsetBase<T, L>(s: State<T, L>, t: T)
    requires Base(s) && t in s.tcb
    ensures Base(Unset(s, t))
  {
    UnsetEffect(s, t);
    var u := Unset(s, t);
    hide Unset;
    hide ListOk;
    hide ThreadOk;
    hide Without;
    hide WakesOf;
    forall l | l in s.queue
      ensures ListOk(u, l)
    {
      UnsetListOk(s, t, l);
    }
    forall x | x in u.tcb
      ensures ThreadOk(u, x)
    {
      UnsetThreadOk(s, t, x);
    }
    Distinct(s, s.sleeping);
    WithoutSorted(s, Q(s, s.sleeping), t);
    SameWakes(s, u, Q(u, s.sleeping));
  }

  lemma Distinct<T, L>(s: State<T, L>, l: L)
    requires Base(s) && l in s.queue
    ensures NoDuplicates(Q(s, l))
  {
    assert ListOk(s, l);
  }

  lemma PlaceBase<T, L>(s: State<T, L>, t: T, l: L, q: seq<T>, tag: Tag)
    requires Base(s) && t in s.tcb && s.tcb[t].list.None? && t !in s.gone
    requires l in s.queue && ListFor(s, t, tag) == Some(l)
    requires NoDuplicates(q) && forall x :: x in q <==> x == t || x in Q(s, l)
    requires l == s.sleeping ==> Sorted(WakesOf(s, q))
    ensures Base(Place(s, t, l, q, tag))
  {
    var p := Place(s, t, l, q, tag);
    hide WakesOf;
    hide Sorted;
    hide NoDuplicates;
    forall m | m in p.queue
      ensures ListOk(p, m)
    {
      PlaceList(s, t, l, q, tag, m);
    }
    forall x | x in p.tcb
      ensures ThreadOk(p, x)
    {
      PlaceThread(s, t, l, q, tag, x);
    }
    SameWakes(s, p, Q(p, s.sleeping));
  }

  lemma PlaceList<T, L>(s: State<T, L>, t: T, l: L, q: seq<T>, tag: Tag, m: L)
    requires Base(s) && t in s.tcb && s.tcb[t].list.None? && l in s.queue && m in s.queue
    requires NoDuplicates(q) && forall x :: x in q <==> x == t || x in Q(s, l)
    ensures ListOk(Place(s, t, l, q, tag), m)
  {
    hide NoDuplicates;
    assert ListOk(s, m) && ListOk(s, l);
    hide Base;
  }

  lemma PlaceThread<T, L>(s: State<T, L>, t: T, l: L, q: seq<T>, tag: Tag, x: T)
    requires Base(s) && t in s.tcb && t !in s.gone && l in s.queue && ListFor(s, t, tag) == Some(l) && x in s.tcb
    requires forall y :: y in q <==> y == t || y in Q(s, l)
    ensures ThreadOk(Place(s, t, l, q, tag), x)
  {
    assert ThreadOk(s, x) && ThreadOk(s, t);
    hide Base;
  }

  /** Thread `t` has moved to list `l`, which is then `q`, and has become `e`; every
      other list has at most lost it. */
  ghost predicate MovedTo<T, L>(s: State<T, L>, s': State<T, L>, t: T, l: L, q: seq<T>, e: Tcb<L>) {
    && s' == s.(tcb := s.tcb[t := e], queue := s'.queue)
    && s'.queue.Keys == s.queue.Keys
    && Q(s', l) == q
    && forall m :: m in s.queue && m != l ==> Q(s', m) == Without(Q(s, m), t)
  }

  lemma MoveBase<T, L>(s: State<T, L>, t: T, l: L, q: seq<T>, tag: Tag)
    requires Base(s) && t in s.tcb && t !in s.gone && l in s.queue && ListFor(s, t, tag) == Some(l)
    requires NoDuplicates(q) && forall x :: x in q <==> x == t || x in Q(s, l)
    requires l == s.sleeping ==> Sorted(WakesOf(s, q))
    ensures var s' := Place(Unset(s, t), t, l, q, tag);
      && Base(s')
      && MovedTo(s, s', t, l, q, s.tcb[t].(tag := tag, list := Some(l)))
  {
    hide Unset;
    hide Base;
    hide Without;
    hide NoDuplicates;
    hide WakesOf;
    UnsetBase(s, t);
    UnsetEffect(s, t);
    Distinct(s, l);
    WithoutMembers(Q(s, l), t);
    var u := Unset(s, t);
    assert forall x :: x in q <==> x == t || x in Q(u, l);
    SameWakes(s, u, q);
    PlaceBase(u, t, l, q, tag);
  }

  lemma SetRunningBase<T, L>(s: State<T, L>, t: T)
    requires Base(s) && t in s.tcb && t !in s.gone
    ensures var s' := SetRunning(s, t);
      && Base(s')
      && MovedTo(s, s', t, s.running, [t] + Without(Q(s, s.running), t), s.tcb[t].(tag := Running, list := Some(s.running)))
  {
    UnsetEffect(s, t);
    Distinct(s, s.running);
    WithoutMembers(Q(s, s.running), t);
    MoveBase(s, t, s.running, [t] + Without(Q(s, s.running), t), Running);
  }

  lemma SetRunnableBase<T, L>(s: State<T, L>, t: T)
    requires Base(s) && t in s.tcb && t !in s.gone
    ensures var s' := SetRunnable(s, t);
      && Base(s')
      && MovedTo(s, s', t, s.running, Without(Q(s, s.running), t) + [t], s.tcb[t].(tag := Running, list := Some(s.running)))
  {
    UnsetEffect(s, t);
    Distinct(s, s.running);
    WithoutMembers(Q(s, s.running), t);
    MoveBase(s, t, s.running, Without(Q(s, s.running), t) + [t], Running);
  }

  lemma SetWaitingBase<T, L>(s: State<T, L>, t: T)
    requires Base(s) && t in s.tcb && t !in s.gone
    ensures t in s.home
    ensures var s' := SetWaiting(s, t);
      && Base(s')
      && MovedTo(s, s', t, s.home[t], Without(Q(s, s.home[t]), t) + [t], s.tcb[t].(tag := Waiting, list := Some(s.home[t])))
  {
    UnsetEffect(s, t);
    assert ThreadOk(s, t);
    var l := s.home[t];
    assert ListOk(s, l);
    WithoutMembers(Q(s, l), t);
    MoveBase(s, t, l, Without(Q(s, l), t) + [t], Waiting);
  }

  /** Thread `t` has left its list and has become `e`; nothing else has changed. */
  ghost predicate Left<T, L>(s: State<T, L>, s': State<T, L>, t: T, e: Tcb<L>) {
    && s' == s.(tcb := s.tcb[t := e], queue := s'.queue)
    && s'.queue.Keys == s.queue.Keys
    && forall m :: m in s.queue ==> Q(s', m) == Without(Q(s, m), t)
  }

  lemma SetBlockedBase<T, L>(s: State<T, L>, t: T)
    requires Base(s) && t in s.tcb && t !in s.gone
    ensures var s' := SetBlocked(s, t);
      && Base(s')
      && Left(s, s', t, s.tcb[t].(tag := Blocked, list := None))
  {
    hide Base;
    hide Unset;
    hide Without;
    UnsetBase(s, t);
    UnsetEffect(s, t);
    Reblocked(Unset(s, t), t, Tcb(Blocked, s.tcb[t].wake, None));
  }

  /** A thread in no list may change its wake time, or become blocked. */
  lemma Reblocked<T, L>(s: State<T, L>, t: T, e: Tcb<L>)
    requires Base(s) && t in s.tcb && s.tcb[t].list.None? && t !in s.gone
    requires e.list.None? && (e.tag.Zombie? || e.tag.Blocked?)
    ensures Base(s.(tcb := s.tcb[t := e]))
  {
    var s' := s.(tcb := s.tcb[t := e]);
    forall m | m in s'.queue
      ensures ListOk(s', m)
    {
      assert ListOk(s, m);
    }
    forall x | x in s'.tcb
      ensures ThreadOk(s', x)
    {
      assert ThreadOk(s, x);
    }
    assert ListOk(s, s.sleeping);
    SameWakes(s, s', Q(s, s.sleeping));
  }

  lemma InsertedMembers<T>(q: seq<T>, k: nat, t: T)
    requires NoDuplicates(q) && k <= |q| && t !in q
    ensures NoDuplicates(Inserted(q, k, t)) && forall x :: x in Inserted(q, k, t) <==> x == t || x in q
  {
    var r := Inserted(q, k, t);
    forall x
      ensures x in r <==> x == t || x in q
    {
      assert q == q[..k] + q[k..];
    }
  }

  lemma InsertedSleeper<T, L>(s: State<T, L>, q: seq<T>, t: T)
    requires Sorted(WakesOf(s, q))
    ensures Sorted(WakesOf(s, Inserted(q, Slot(WakesOf(s, q), Block(s, t).wake), t)))
  {
    var wakes, w := WakesOf(s, q), Block(s, t).wake;
    var k := Slot(wakes, w);
    InsertSorted(wakes, w);
    hide Slot;
    hide Sorted;
    assert WakesOf(s, Inserted(q, k, t)) == Inserted(wakes, k, w);
  }

  lemma BedBase<T, L>(s: State<T, L>, t: T)
    requires Base(s) && t in s.tcb && s.tcb[t].list.None? && t !in s.gone
    ensures Base(Place(s, t, s.sleeping, Bed(s, t), Sleeping))
  {
    hide Slot;
    hide WakesOf;
    hide Inserted;
    hide ThreadOk;
    hide NoDuplicates;
    var q := Q(s, s.sleeping);
    assert ListOk(s, s.sleeping) && t !in q;
    InsertedMembers(q, Slot(WakesOf(s, q), Block(s, t).wake), t);
    InsertedSleeper(s, q, t);
    PlaceBase(s, t, s.sleeping, Bed(s, t), Sleeping);
  }

  lemma SleepingThere<T, L>(s: State<T, L>)
    requires Base(s)
    ensures s.sleeping in s.queue
  {
  }

  lemma SetSleepingEffect<T, L>(s: State<T, L>, t: T, n: nat)
    requires Base(s) && t in s.tcb
    ensures var s', wake := SetSleeping(s, t, n), s.ticks + n;
      var q := Without(Q(s, s.sleeping), t);
      var k := Slot(WakesOf(s, q), wake);
      MovedTo(s, s', t, s.sleeping, Inserted(q, k, t), Tcb(Sleeping, wake, Some(s.sleeping)))
  {
    hide Base;
    hide Unset;
    hide Without;
    hide Slot;
    hide WakesOf;
    hide Inserted;
    hide NoDuplicates;
    assert s.sleeping in s.queue by {
      SleepingThere(s);
    }
    Distinct(s, s.sleeping);
    UnsetEffect(s, t);
    var due := SetWake(Unset(s, t), t, s.ticks + n);
    var q := Q(due, due.sleeping);
    WithoutMembers(Q(s, s.sleeping), t);
    SameWakes(s, due, q);
  }

  lemma SetSleepingBase<T, L>(s: State<T, L>, t: T, n: nat)
    requires Base(s) && t in s.tcb && t !in s.gone
    ensures Base(SetSleeping(s, t, n))
  {
    hide Base;
    hide Unset;
    hide Bed;
    UnsetBase(s, t);
    UnsetEffect(s, t);
    var due := SetWake(Unset(s, t), t, s.ticks + n);
    Reblocked(Unset(s, t), t, due.tcb[t]);
    BedBase(due, t);
  }
}

/** The counting semaphore (user/libthread/semaphore.c) over the condition variable
    (user/libthread/condvar.c), two mutexes and the kernel's deschedule and
    make_runnable (kern/syscall/management.c), as a step machine of any number of
    threads.

    The two mutexes are first-come first-served locks: `UserMutex` proves that the
    mutex is one (StepRefinesFifo). */
module Semaphore {
  import Collections
  import UserMutex

  type Tid = UserMutex.Tid
  type Fifo = UserMutex.Fifo

  // ----- locks -----

  /** What a thread has to do with a lock. */
  datatype Role = Away | Queued | Holding

  function Locked(a: Fifo, t: Tid): Fifo {
    if a.owner == -1 then UserMutex.Fifo(t, []) else a.(queue := a.queue + [t])
  }

  function Released(a: Fifo): Fifo {
    if a.queue == [] then UserMutex.Fifo(-1, []) else UserMutex.Fifo(a.queue[0], a.queue[1..])
  }

  /** These are the moves of the lock the mutex implements. */
  lemma LockMoves(a: Fifo, t: Tid)
    ensures a.owner == -1 && a.queue == [] ==> UserMutex.FifoNext(a, t, UserMutex.Acquire, Locked(a, t))
    ensures a.owner != -1 && a.owner != t && t !in a.queue ==> UserMutex.FifoNext(a, t, UserMutex.Enqueue, Locked(a, t))
    ensures a.owner == t ==> UserMutex.FifoNext(a, t, UserMutex.Release, Released(a))
  {
  }

  ghost predicate LockOk(a: Fifo, role: Tid -> Role) {
    && a.owner >= -1
    && (forall t :: role(t).Holding? ==> a.owner == t)
    && (a.owner >= 0 ==> !role(a.owner).Away?)
    && (forall t :: t in a.queue <==> role(t).Queued? && a.owner != t)
    && Collections.NoDuplicates(a.queue)
    && (a.owner == -1 ==> a.queue == [])
  }

  /** One thread's move on a lock: none, a call of mutex_lock, its return once the
      thread has been made the owner, or mutex_unlock. */
  ghost predicate LockMove(a: Fifo, r: Role, a': Fifo, r': Role, t: Tid) {
    || (a' == a && r' == r)
    || (r.Away? && a' == Locked(a, t) && r' == if a.owner == -1 then Holding else Queued)
    || (r.Queued? && a.owner == t && a' == a && r'.Holding?)
    || (r.Holding? && a' == Released(a) && r'.Away?)
  }

  lemma LockMoveKeeps(a: Fifo, role: Tid -> Role, a': Fifo, role': Tid -> Role, t: Tid)
    requires LockOk(a, role) && LockMove(a, role(t), a', role'(t), t)
    requires forall u :: u != t ==> role'(u) == role(u)
    ensures LockOk(a', role')
  {
    if role(t).Holding? && role'(t).Away? && a.queue != [] {
      assert a.queue == [a.queue[0]] + a.queue[1..];
      assert a.queue[0] in a.queue;
      forall u ensures u in a'.queue <==> role'(u).Queued? && a'.owner != u {
        assert u in a.queue <==> u == a.queue[0] || u in a.queue[1..];
      }
    }
  }

  // ----- the threads -----

  datatype Pc =
    | Outside
    // sem_wait
    | WaitLock | WaitQueued | WaitDec
    // ... cond_wait
    | CondLock | CondQueued | CondAdd | CondUnlockM | CondUnlockC | CondDeschedule | CondBlocked | CondRelock | CondRequeued
    | WaitUnlock
    // sem_signal
    | SignalLock | SignalQueued | SignalInc
    // ... cond_signal
    | SignalLockC | SignalQueuedC | SignalTest | SignalRemove | SignalMake(target: Tid) | SignalUnlockC
    | SignalUnlock
    // cond_broadcast
    | CastLock | CastQueued | CastTest | CastRemove | CastMake(target: Tid) | CastUnlock

  /** What a thread outside calls: sem_wait, sem_signal, or cond_broadcast on the
      semaphore's condition variable. */
  datatype Call = Wait | Signal | Broadcast

  /** `m` is the semaphore's mutex, `c` the condition variable's, `list` its waiting
      list and `blocked` the threads the kernel has descheduled.  `waits`,
      `signals` and `entered` count the decrements, the increments and the returns
      from sem_wait, and `taken` the waiters that broadcasts took off the list. */
  datatype State = State(n: int, m: Fifo, c: Fifo, list: seq<Tid>, blocked: set<Tid>, pc: map<Tid, Pc>,
                         waits: nat, signals: nat, entered: nat, taken: nat)

  function At(s: State, t: Tid): Pc {
    if t in s.pc then s.pc[t] else Outside
  }

  function Goto(s: State, t: Tid, pc: Pc): State {
    s.(pc := s.pc[t := pc])
  }

  /** mutex_lock on the semaphore's mutex. */
  function LockM(s: State, t: Tid, got: Pc, queued: Pc): State {
    Goto(s, t, if s.m.owner == -1 then got else queued).(m := Locked(s.m, t))
  }

  function LockC(s: State, t: Tid, got: Pc, queued: Pc): State {
    Goto(s, t, if s.c.owner == -1 then got else queued).(c := Locked(s.c, t))
  }

  predicate Signalling(pc: Pc) {
    || pc.SignalLock? || pc.SignalQueued? || pc.SignalInc? || pc.SignalLockC? || pc.SignalQueuedC? || pc.SignalTest?
    || pc.SignalRemove? || pc.SignalMake? || pc.SignalUnlockC? || pc.SignalUnlock?
  }

  predicate Casting(pc: Pc) {
    pc.CastLock? || pc.CastQueued? || pc.CastTest? || pc.CastRemove? || pc.CastMake? || pc.CastUnlock?
  }

  /** About to take the first waiter off the list. */
  predicate Removing(pc: Pc) {
    pc.SignalRemove? || pc.CastRemove?
  }

  /** Has taken a waiter off the list and is waking it. */
  predicate Waking(pc: Pc) {
    pc.SignalMake? || pc.CastMake?
  }

  /** The next step of a thread in sem_wait, and in the cond_wait it calls. */
  function WaitStep(s: State, t: Tid): State {
    match At(s, t)
    case WaitLock => LockM(s, t, WaitDec, WaitQueued)
    case WaitQueued => if s.m.owner == t then Goto(s, t, WaitDec) else s
    case WaitDec => Goto(s, t, if s.n - 1 < 0 then CondLock else WaitUnlock).(n := s.n - 1, waits := s.waits + 1)
    case CondLock => LockC(s, t, CondAdd, CondQueued)
    case CondQueued => if s.c.owner == t then Goto(s, t, CondAdd) else s
    case CondAdd => Goto(s, t, CondUnlockM).(list := s.list + [t])
    case CondUnlockM => Goto(s, t, CondUnlockC).(m := Released(s.m))
    case CondUnlockC => Goto(s, t, CondDeschedule).(c := Released(s.c))
    case CondDeschedule => Goto(s, t, CondBlocked).(blocked := s.blocked + {t})
    case CondBlocked => if t in s.blocked then s else Goto(s, t, CondRelock)
    case CondRelock => LockM(s, t, WaitUnlock, CondRequeued)
    case CondRequeued => if s.m.owner == t then Goto(s, t, WaitUnlock) else s
    case WaitUnlock => Goto(s, t, Outside).(m := Released(s.m), entered := s.entered + 1)
    case _ => s
  }

  /** The next step of a thread in sem_signal, and in the cond_signal it calls. */
  function SignalStep(s: State, t: Tid): State {
    match At(s, t)
    case SignalLock => LockM(s, t, SignalInc, SignalQueued)
    case SignalQueued => if s.m.owner == t then Goto(s, t, SignalInc) else s
    case SignalInc => Goto(s, t, if s.n + 1 <= 0 then SignalLockC else SignalUnlock).(n := s.n + 1, signals := s.signals + 1)
    case SignalLockC => LockC(s, t, SignalTest, SignalQueuedC)
    case SignalQueuedC => if s.c.owner == t then Goto(s, t, SignalTest) else s
    case SignalTest => Goto(s, t, if s.list != [] then SignalRemove else SignalUnlockC)
    case SignalRemove => if s.list == [] then s else Goto(s, t, SignalMake(s.list[0])).(list := s.list[1..])
    case SignalMake(u) => if u in s.blocked then Goto(s, t, SignalUnlockC).(blocked := s.blocked - {u}) else s
    case SignalUnlockC => Goto(s, t, SignalUnlock).(c := Released(s.c))
    case SignalUnlock => Goto(s, t, Outside).(m := Released(s.m))
    case _ => s
  }

  /** The next step of a thread in cond_broadcast. */
  function CastStep(s: State, t: Tid): State {
    match At(s, t)
    case CastLock => LockC(s, t, CastTest, CastQueued)
    case CastQueued => if s.c.owner == t then Goto(s, t, CastTest) else s
    case CastTest => Goto(s, t, if s.list != [] then CastRemove else CastUnlock)
    case CastRemove =>
      if s.list == [] then s else Goto(s, t, CastMake(s.list[0])).(list := s.list[1..], taken := s.taken + 1)
    case CastMake(u) => if u in s.blocked then Goto(s, t, CastTest).(blocked := s.blocked - {u}) else s
    case CastUnlock => Goto(s, t, Outside).(c := Released(s.c))
    case _ => s
  }

  /** The next step of thread `t`; `call` is what a thread outside calls. */
  function Step(s: State, t: Tid, call: Call): State {
    if At(s, t).Outside? then Goto(s, t, match call case Wait => WaitLock case Signal => SignalLock case Broadcast => CastLock)
    else if Casting(At(s, t)) then CastStep(s, t)
    else if Signalling(At(s, t)) then SignalStep(s, t)
    else WaitStep(s, t)
  }

  /** sem_init with `count` free slots. */
  function Initial(count: int): State {
    State(count, UserMutex.Fifo(-1, []), UserMutex.Fifo(-1, []), [], {}, map[], 0, 0, 0, 0)
  }

  function RoleM(pc: Pc): Role {
    if pc.WaitQueued? || pc.CondRequeued? || pc.SignalQueued? then Queued
    else if pc.WaitDec? || pc.CondLock? || pc.CondQueued? || pc.CondAdd? || pc.CondUnlockM? || pc.WaitUnlock?
      || pc.SignalInc? || pc.SignalLockC? || pc.SignalQueuedC? || pc.SignalTest? || pc.SignalRemove? || pc.SignalMake?
      || pc.SignalUnlockC? || pc.SignalUnlock? then Holding
    else Away
  }

  function RoleC(pc: Pc): Role {
    if pc.CondQueued? || pc.SignalQueuedC? || pc.CastQueued? then Queued
    else if pc.CondAdd? || pc.CondUnlockM? || pc.CondUnlockC?
      || pc.SignalTest? || pc.SignalRemove? || pc.SignalMake? || pc.SignalUnlockC?
      || pc.CastTest? || pc.CastRemove? || pc.CastMake? || pc.CastUnlock? then Holding
    else Away
  }

  // ----- the invariant -----

  ghost function RolesM(s: State): Tid -> Role {
    (t: Tid) => RoleM(At(s, t))
  }

  ghost function RolesC(s: State): Tid -> Role {
    (t: Tid) => RoleC(At(s, t))
  }

  ghost predicate LocksOk(s: State) {
    LockOk(s.m, RolesM(s)) && LockOk(s.c, RolesC(s))
  }

  /** Has taken the count below zero and is not on the list yet. */
  predicate Arriving(pc: Pc) {
    pc.CondLock? || pc.CondQueued? || pc.CondAdd?
  }

  /** Has raised the count and not taken a waiter off the list yet. */
  predicate Granting(pc: Pc) {
    pc.SignalLockC? || pc.SignalQueuedC? || pc.SignalTest? || pc.SignalRemove?
  }

  /** The difference between the list and the count that the holder of the
      semaphore's mutex makes on its way. */
  function Pending(s: State): int {
    if s.m.owner < 0 then 0
    else if Arriving(At(s, s.m.owner)) then 1
    else if Granting(At(s, s.m.owner)) then -1
    else 0
  }

  /** How many waiters the count says there are. */
  function Wanting(s: State): nat {
    if s.n < 0 then -s.n else 0
  }

  /** How many of these are not on the list: the broadcasts have let them go, or the
      count was below zero from the start. */
  function Slack(s: State): int {
    Wanting(s) - |s.list| - Pending(s)
  }

  /** The list is as long as the count is below zero. */
  ghost predicate CountExact(s: State) {
    Slack(s) == 0
  }

  function Below(count: int): nat {
    if count < 0 then -count else 0
  }

  ghost predicate SlackOk(s: State, count: int) {
    0 <= Slack(s) <= Below(count) + s.taken
  }

  /** Thread `u` has taken `t` off the list and is waking it. */
  predicate Wakes(s: State, u: Tid, t: Tid) {
    At(s, u) == SignalMake(t) || At(s, u) == CastMake(t)
  }

  ghost predicate HasWaker(s: State, t: Tid) {
    exists u :: Wakes(s, u, t)
  }

  ghost predicate ListExact(s: State) {
    && Collections.NoDuplicates(s.list)
    && (forall t :: t in s.list ==>
          At(s, t).CondUnlockM? || At(s, t).CondUnlockC? || At(s, t).CondDeschedule? || (At(s, t).CondBlocked? && t in s.blocked))
    && (forall t :: At(s, t).CondUnlockM? || At(s, t).CondUnlockC? ==> t in s.list)
    && (forall t :: At(s, t).CondDeschedule? || (At(s, t).CondBlocked? && t in s.blocked) ==> t in s.list || HasWaker(s, t))
    && (forall t :: t in s.blocked ==> At(s, t).CondBlocked?)
    && (forall u, t :: Wakes(s, u, t) ==>
          t !in s.list && (At(s, t).CondDeschedule? || (At(s, t).CondBlocked? && t in s.blocked)))
    && (forall t :: Removing(At(s, t)) ==> s.list != [])
  }

  ghost predicate Inv(s: State) {
    LocksOk(s) && CountExact(s) && ListExact(s)
  }

  lemma InitialInv(count: int)
    ensures LocksOk(Initial(count)) && ListExact(Initial(count)) && SlackOk(Initial(count), count)
  {
  }

  /** Nobody but `t` has moved. */
  ghost predicate OnlyMoved(s: State, s': State, t: Tid) {
    forall u :: u != t ==> At(s', u) == At(s, u)
  }

  lemma WaitElsewhere(s: State, t: Tid)
    ensures OnlyMoved(s, WaitStep(s, t), t)
  {
    hide Locked;
    hide Released;
  }

  lemma SignalElsewhere(s: State, t: Tid)
    ensures OnlyMoved(s, SignalStep(s, t), t)
  {
    hide Locked;
    hide Released;
  }

  lemma CastElsewhere(s: State, t: Tid)
    ensures OnlyMoved(s, CastStep(s, t), t)
  {
    hide Locked;
    hide Released;
  }

  lemma StepElsewhere(s: State, t: Tid, call: Call)
    ensures forall u :: u != t ==> At(Step(s, t, call), u) == At(s, u)
  {
    hide WaitStep;
    hide SignalStep;
    hide CastStep;
    WaitElsewhere(s, t);
    SignalElsewhere(s, t);
    CastElsewhere(s, t);
  }

  /** A step moves each lock as the lock allows. */
  ghost predicate Moves(s: State, s': State, t: Tid) {
    && LockMove(s.m, RoleM(At(s, t)), s'.m, RoleM(At(s', t)), t)
    && LockMove(s.c, RoleC(At(s, t)), s'.c, RoleC(At(s', t)), t)
  }

  lemma WaitMoves(s: State, t: Tid)
    ensures Moves(s, WaitStep(s, t), t)
  {
    hide Locked;
    hide Released;
  }

  lemma SignalMoves(s: State, t: Tid)
    ensures Moves(s, SignalStep(s, t), t)
  {
    hide Locked;
    hide Released;
  }

  lemma CastMoves(s: State, t: Tid)
    ensures Moves(s, CastStep(s, t), t)
  {
    hide Locked;
    hide Released;
  }

  lemma StepMoves(s: State, t: Tid, call: Call)
    ensures Moves(s, Step(s, t, call), t)
  {
    WaitMoves(s, t);
    SignalMoves(s, t);
    CastMoves(s, t);
    hide WaitStep;
    hide SignalStep;
    hide CastStep;
  }

  lemma LocksStep(s: State, t: Tid, call: Call)
    requires LocksOk(s)
    ensures LocksOk(Step(s, t, call))
  {
    hide Step;
    hide RoleM;
    hide RoleC;
    hide LockOk;
    hide LockMove;
    var s' := Step(s, t, call);
    StepElsewhere(s, t, call);
    StepMoves(s, t, call);
    LockMoveKeeps(s.m, RolesM(s), s'.m, RolesM(s'), t);
    LockMoveKeeps(s.c, RolesC(s), s'.c, RolesC(s'), t);
  }

  /** Whoever is arriving or granting holds the semaphore's mutex; whoever is next
      in line is queued. */
  lemma HolderIsOwner(s: State, t: Tid)
    requires LocksOk(s)
    ensures RoleM(At(s, t)).Holding? ==> s.m.owner == t
    ensures RoleC(At(s, t)).Holding? ==> s.c.owner == t
    ensures s.m.queue != [] ==> RoleM(At(s, s.m.queue[0])).Queued? && s.m.queue[0] != s.m.owner
  {
    assert RolesM(s)(t) == RoleM(At(s, t)) && RolesC(s)(t) == RoleC(At(s, t));
    if s.m.queue != [] {
      assert RolesM(s)(s.m.queue[0]) == RoleM(At(s, s.m.queue[0]));
      assert s.m.queue[0] in s.m.queue;
    }
  }

  /** In cond_wait, up to the time the thread comes back. */
  predicate Leaving(pc: Pc) {
    || pc.CondLock? || pc.CondQueued? || pc.CondAdd? || pc.CondUnlockM? || pc.CondUnlockC? || pc.CondDeschedule?
    || pc.CondBlocked?
  }

  /** Slack grows by a waiter that a broadcast takes off the list, and shrinks by a
      signal that finds the list empty. */
  ghost predicate SlackMoves(s: State, s': State, t: Tid) {
    && Slack(s') == Slack(s) + (if Frees(s, t) then 1 else 0) - (if Misses(s, t) then 1 else 0)
    && s'.taken == s.taken + if Frees(s, t) then 1 else 0
  }

  predicate Frees(s: State, t: Tid) {
    At(s, t).CastRemove? && s.list != []
  }

  predicate Misses(s: State, t: Tid) {
    At(s, t).SignalTest? && s.list == []
  }

  lemma CondCount(s: State, t: Tid)
    requires LocksOk(s) && Leaving(At(s, t))
    ensures SlackMoves(s, WaitStep(s, t), t)
  {
    HolderIsOwner(s, t);
    hide LocksOk;
    hide Locked;
  }

  lemma WaitCount(s: State, t: Tid)
    requires LocksOk(s) && !At(s, t).Outside? && !Signalling(At(s, t)) && !Casting(At(s, t)) && !Leaving(At(s, t))
    ensures SlackMoves(s, WaitStep(s, t), t)
  {
    HolderIsOwner(s, t);
    hide LocksOk;
  }

  lemma SignalCount(s: State, t: Tid)
    requires LocksOk(s) && Signalling(At(s, t))
    ensures SlackMoves(s, SignalStep(s, t), t)
  {
    hide LocksOk;
    HolderIsOwner(s, t);
  }

  /** A broadcast changes the list, and nothing else the semaphore counts. */
  lemma CastCount(s: State, t: Tid)
    requires LocksOk(s) && Casting(At(s, t))
    ensures SlackMoves(s, CastStep(s, t), t)
  {
    CasterNotOwner(s, t);
    hide LocksOk;
    hide Locked;
    hide Released;
  }

  lemma CasterNotOwner(s: State, t: Tid)
    requires LocksOk(s) && Casting(At(s, t))
    ensures s.m.owner != t
  {
    assert RolesM(s)(t).Away?;
  }

  lemma CountStep(s: State, t: Tid, call: Call)
    requires LocksOk(s)
    ensures SlackMoves(s, Step(s, t, call), t)
  {
    hide WaitStep;
    hide SignalStep;
    hide CastStep;
    if Casting(At(s, t)) {
      CastCount(s, t);
    } else if !At(s, t).Outside? && !Signalling(At(s, t)) {
      if Leaving(At(s, t)) {
        CondCount(s, t);
      } else {
        WaitCount(s, t);
      }
    } else if Signalling(At(s, t)) {
      SignalCount(s, t);
    } else {
      HolderIsOwner(s, t);
      OutsideNotOwner(s, t);
      hide LocksOk;
    }
  }

  lemma SlackStep(s: State, t: Tid, call: Call, count: int)
    requires LocksOk(s) && SlackOk(s, count)
    ensures SlackOk(Step(s, t, call), count)
  {
    hide Step;
    HolderIsOwner(s, t);
    CountStep(s, t, call);
    hide LocksOk;
  }

  lemma OutsideNotOwner(s: State, t: Tid)
    requires LocksOk(s) && At(s, t).Outside?
    ensures s.m.owner != t && s.c.owner != t
  {
    assert RolesM(s)(t).Away? && RolesC(s)(t).Away?;
  }

  // ----- the waiting list and the kernel's blocked threads -----

  /** Registered, and still holding the condition variable's mutex. */
  predicate Listed(pc: Pc) {
    pc.CondUnlockM? || pc.CondUnlockC?
  }

  /** The steps that change the list or the blocked threads, or wake up. */
  predicate Loud(pc: Pc) {
    pc.CondAdd? || pc.CondDeschedule? || pc.CondBlocked? || Removing(pc) || Waking(pc)
  }

  /** A step that leaves the list and the blocked threads alone. */
  ghost predicate Quiet(s: State, s': State, t: Tid) {
    var pc, pc' := At(s, t), At(s', t);
    && s'.list == s.list && s'.blocked == s.blocked
    && (Listed(pc) ==> Listed(pc') || pc'.CondDeschedule?)
    && (Listed(pc') ==> Listed(pc))
    && (pc'.CondDeschedule? ==> Listed(pc))
    && !pc'.CondBlocked? && !Waking(pc') && (Removing(pc') ==> s.list != [])
    && !pc.CondDeschedule? && !pc.CondBlocked? && !Waking(pc)
  }

  lemma QuietWait(s: State, t: Tid)
    requires !Loud(At(s, t))
    ensures Quiet(s, WaitStep(s, t), t)
  {
    hide Locked;
    hide Released;
  }

  lemma QuietSignal(s: State, t: Tid)
    requires !Loud(At(s, t))
    ensures Quiet(s, SignalStep(s, t), t)
  {
    hide Locked;
    hide Released;
  }

  lemma QuietCast(s: State, t: Tid)
    requires !Loud(At(s, t))
    ensures Quiet(s, CastStep(s, t), t)
  {
    hide Locked;
    hide Released;
  }

  lemma QuietEffect(s: State, t: Tid, call: Call)
    requires !Loud(At(s, t))
    ensures Quiet(s, Step(s, t, call), t)
  {
    hide WaitStep;
    hide SignalStep;
    hide CastStep;
    QuietWait(s, t);
    QuietSignal(s, t);
    QuietCast(s, t);
  }

  /** A step by a thread that is not waking another changes no waker. */
  lemma WakersKept(s: State, s': State, t: Tid)
    requires forall u :: u != t ==> At(s', u) == At(s, u)
    requires !Waking(At(s, t)) && !Waking(At(s', t))
    ensures forall u, w :: Wakes(s', u, w) <==> Wakes(s, u, w)
    ensures forall w :: HasWaker(s, w) ==> HasWaker(s', w)
  {
    forall u, w ensures Wakes(s', u, w) <==> Wakes(s, u, w) {
    }
    forall w | HasWaker(s, w) ensures HasWaker(s', w) {
      var u :| Wakes(s, u, w);
      assert Wakes(s', u, w);
    }
  }

  lemma QuietStep(s: State, t: Tid, call: Call)
    requires ListExact(s) && !Loud(At(s, t))
    ensures ListExact(Step(s, t, call))
  {
    QuietEffect(s, t, call);
    StepElsewhere(s, t, call);
    hide Step;
    hide At;
    var s' := Step(s, t, call);
    WakersKept(s, s', t);
  }

  lemma AddStep(s: State, t: Tid, call: Call)
    requires ListExact(s) && At(s, t).CondAdd?
    ensures ListExact(Step(s, t, call))
  {
    StepElsewhere(s, t, call);
    var s' := Step(s, t, call);
    assert At(s', t) == CondUnlockM && s'.list == s.list + [t] && s'.blocked == s.blocked;
    assert t !in s.list;
    hide Step;
    hide At;
    WakersKept(s, s', t);
  }

  lemma DescheduleStep(s: State, t: Tid, call: Call)
    requires ListExact(s) && At(s, t).CondDeschedule?
    ensures ListExact(Step(s, t, call))
  {
    StepElsewhere(s, t, call);
    var s' := Step(s, t, call);
    assert At(s', t) == CondBlocked && s'.list == s.list && s'.blocked == s.blocked + {t};
    hide Step;
    hide At;
    WakersKept(s, s', t);
  }

  lemma ResumeStep(s: State, t: Tid, call: Call)
    requires ListExact(s) && At(s, t).CondBlocked?
    ensures ListExact(Step(s, t, call))
  {
    StepElsewhere(s, t, call);
    var s' := Step(s, t, call);
    if t !in s.blocked {
      assert At(s', t) == CondRelock && s'.list == s.list && s'.blocked == s.blocked;
      hide Step;
      hide At;
      WakersKept(s, s', t);
    }
  }

  /** A waiter taken off the list has a waker, and nobody loses one. */
  lemma WakerAdded(s: State, s': State, t: Tid, w: Tid)
    requires forall u :: u != t ==> At(s', u) == At(s, u)
    requires !Waking(At(s, t)) && Wakes(s', t, w)
    ensures forall u, v :: Wakes(s', u, v) <==> Wakes(s, u, v) || (u == t && v == w)
    ensures forall v :: HasWaker(s, v) || v == w ==> HasWaker(s', v)
  {
    forall u, v ensures Wakes(s', u, v) <==> Wakes(s, u, v) || (u == t && v == w) {
    }
    forall v | HasWaker(s, v) || v == w ensures HasWaker(s', v) {
      if HasWaker(s, v) {
        var u :| Wakes(s, u, v);
        assert Wakes(s', u, v);
      } else {
        assert Wakes(s', t, v);
      }
    }
  }

  lemma RemoveEffect(s: State, t: Tid, call: Call)
    requires Removing(At(s, t))
    ensures var s' := Step(s, t, call);
      if s.list == [] then s' == s
      else Wakes(s', t, s.list[0]) && Waking(At(s', t)) && s'.list == s.list[1..] && s'.blocked == s.blocked
  {
    hide WaitStep;
  }

  lemma MakeEffect(s: State, t: Tid, call: Call)
    requires Waking(At(s, t))
    ensures var s', w := Step(s, t, call), At(s, t).target;
      if w !in s.blocked then s' == s
      else (At(s', t).SignalUnlockC? || At(s', t).CastTest?) && s'.list == s.list && s'.blocked == s.blocked - {w}
  {
    hide WaitStep;
  }

  /** Threads on the list when a signaller takes one off have let go of the
      condition variable's mutex. */
  lemma RemoveStep(s: State, t: Tid, call: Call)
    requires LocksOk(s) && ListExact(s) && Removing(At(s, t))
    ensures ListExact(Step(s, t, call))
  {
    StepElsewhere(s, t, call);
    RemoveEffect(s, t, call);
    hide Step;
    HolderIsOwner(s, t);
    forall u ensures !Listed(At(s, u)) && (Removing(At(s, u)) ==> u == t) {
      HolderIsOwner(s, u);
    }
    hide LocksOk;
    if s.list != [] {
      TakenOff(s, Step(s, t, call), t);
    }
  }

  lemma TakenOff(s: State, s': State, t: Tid)
    requires ListExact(s) && OnlyMoved(s, s', t) && Removing(At(s, t)) && s.list != []
    requires Wakes(s', t, s.list[0]) && Waking(At(s', t)) && s'.list == s.list[1..] && s'.blocked == s.blocked
    requires forall u :: !Listed(At(s, u)) && (Removing(At(s, u)) ==> u == t)
    ensures ListExact(s')
  {
    var w := s.list[0];
    assert s.list == [w] + s.list[1..];
    WakerAdded(s, s', t, w);
    hide At;
    hide Wakes;
    hide HasWaker;
  }

  lemma MakeStep(s: State, t: Tid, call: Call)
    requires LocksOk(s) && ListExact(s) && Waking(At(s, t))
    ensures ListExact(Step(s, t, call))
  {
    hide LocksOk;
    StepElsewhere(s, t, call);
    MakeEffect(s, t, call);
    hide Step;
    var s', w := Step(s, t, call), At(s, t).target;
    if w in s.blocked {
      forall u ensures Waking(At(s, u)) ==> u == t {
        HolderIsOwner(s, u);
        HolderIsOwner(s, t);
      }
      assert Wakes(s, t, w);
      hide Step;
      hide At;
      forall u, v ensures !Wakes(s', u, v) && (Wakes(s, u, v) ==> u == t && v == w) {
      }
    }
  }

  /** Whatever is called, the locks and the list stay in order. */
  lemma StepList(s: State, t: Tid, call: Call)
    requires LocksOk(s) && ListExact(s)
    ensures LocksOk(Step(s, t, call)) && ListExact(Step(s, t, call))
  {
    hide Step;
    hide ListExact;
    LocksStep(s, t, call);
    hide LocksOk;
    if !Loud(At(s, t)) {
      QuietStep(s, t, call);
    } else if At(s, t).CondAdd? {
      AddStep(s, t, call);
    } else if At(s, t).CondDeschedule? {
      DescheduleStep(s, t, call);
    } else if At(s, t).CondBlocked? {
      ResumeStep(s, t, call);
    } else if Removing(At(s, t)) {
      RemoveStep(s, t, call);
    } else {
      MakeStep(s, t, call);
    }
  }

  /** The count stays exact if and only if no broadcast takes a waiter off the
      list. */
  lemma StepInv(s: State, t: Tid, call: Call)
    requires Inv(s)
    ensures Inv(Step(s, t, call)) <==> !Frees(s, t)
  {
    hide Step;
    hide ListExact;
    HolderIsOwner(s, t);
    StepList(s, t, call);
    CountStep(s, t, call);
    hide LocksOk;
  }

  // ----- how many get in -----

  /** Has lowered the count and not returned from sem_wait. */
  predicate Between(pc: Pc) {
    || pc.CondLock? || pc.CondQueued? || pc.CondAdd? || pc.CondUnlockM? || pc.CondUnlockC? || pc.CondDeschedule?
    || pc.CondBlocked? || pc.CondRelock? || pc.CondRequeued? || pc.WaitUnlock?
  }

  ghost function InBetween(s: State): set<Tid> {
    set t | t in s.pc && Between(At(s, t))
  }

  ghost predicate Balanced(s: State, count: int) {
    && s.n == count + s.signals - s.waits
    && s.waits == s.entered + |InBetween(s)|
  }

  /** What a step does to the books of one thread. */
  ghost predicate Booked(s: State, s': State, t: Tid) {
    && s'.n - s'.signals + s'.waits == s.n - s.signals + s.waits
    && s'.waits - s'.entered + (if Between(At(s, t)) then 1 else 0)
    == s.waits - s.entered + (if Between(At(s', t)) then 1 else 0)
  }

  lemma WaitBooked(s: State, t: Tid)
    ensures Booked(s, WaitStep(s, t), t)
  {
    hide Locked;
    hide Released;
  }

  lemma SignalBooked(s: State, t: Tid)
    ensures Booked(s, SignalStep(s, t), t)
  {
    hide Locked;
    hide Released;
  }

  lemma CastBooked(s: State, t: Tid)
    requires Casting(At(s, t))
    ensures Booked(s, CastStep(s, t), t)
  {
    hide Locked;
    hide Released;
  }

  lemma StepBooked(s: State, t: Tid, call: Call)
    ensures Booked(s, Step(s, t, call), t)
  {
    WaitBooked(s, t);
    SignalBooked(s, t);
    if Casting(At(s, t)) {
      CastBooked(s, t);
    }
    hide WaitStep;
    hide SignalStep;
    hide CastStep;
  }

  lemma BalanceStep(s: State, t: Tid, call: Call, count: int)
    requires Balanced(s, count)
    ensures Balanced(Step(s, t, call), count)
  {
    StepBooked(s, t, call);
    StepElsewhere(s, t, call);
    assert !Between(Outside);
    hide Step;
    hide Between;
    var s' := Step(s, t, call);
    forall u ensures (u in InBetween(s) <==> Between(At(s, u))) && (u in InBetween(s') <==> Between(At(s', u))) {
    }
    Collections.SizeAfterToggle(InBetween(s), InBetween(s'), t);
  }

  /** The waiters are in between, each of them once. */
  lemma {:induction false} ListSize(list: seq<Tid>, inside: set<Tid>)
    requires Collections.NoDuplicates(list) && forall t :: t in list ==> t in inside
    ensures |list| <= |inside|
    decreases |list|
  {
    if list != [] {
      var last, rest := list[|list| - 1], list[..|list| - 1];
      assert last in list && last !in rest;
      ListSize(rest, inside - {last});
    }
  }

  /** Threads let in never exceed the slots there were at first, the signals and the
      waiters that broadcasts took; when the semaphore's mutex is free the list is
      as long as the count is below zero, but for the slack. */
  lemma AdmissionBound(s: State, count: int)
    requires ListExact(s) && SlackOk(s, count) && Balanced(s, count)
    ensures s.entered <= count + s.signals + Slack(s)
    ensures s.entered <= (if count < 0 then 0 else count) + s.signals + s.taken
    ensures s.m.owner == -1 ==> |s.list| == Wanting(s) - Slack(s)
  {
    var inside := InBetween(s);
    if s.m.owner >= 0 && Arriving(At(s, s.m.owner)) {
      var t := s.m.owner;
      assert t !in s.list && t in inside;
      ListSize(s.list, inside - {t});
    } else {
      ListSize(s.list, inside);
    }
  }

  /** With an exact count threads let in never exceed the initial count plus the
      signals, and when the semaphore's mutex is free exactly as many threads wait as
      the count is below zero: everyone else who came has been let in. */
  lemma AdmissionExact(s: State, count: int)
    requires ListExact(s) && CountExact(s) && Balanced(s, count)
    ensures s.entered <= count + s.signals
    ensures s.m.owner == -1 ==> |s.list| == Wanting(s)
    ensures s.m.owner == -1 ==> s.waits - |s.list| == if s.waits <= count + s.signals then s.waits else count + s.signals
  {
    hide ListExact;
    AdmissionBound(s, count);
  }

  // ----- no wake-up is lost -----

  /** A signaller that has raised the count finds a waiter. */
  lemma SignalFindsWaiter(s: State, t: Tid)
    requires Inv(s) && (At(s, t).SignalTest? || At(s, t).SignalRemove?)
    ensures s.list != []
  {
    HolderIsOwner(s, t);
  }

  /** make_runnable fails only while the waiter is about to deschedule; one step of
      the waiter later it succeeds. */
  lemma WakeAfterDeschedule(s: State, u: Tid, t: Tid, w1: Call, w2: Call)
    requires LocksOk(s) && ListExact(s) && Wakes(s, u, t)
    ensures t !in s.blocked ==> At(s, t).CondDeschedule?
    ensures t !in s.blocked ==> t in Step(s, t, w1).blocked && Wakes(Step(s, t, w1), u, t)
    ensures t in s.blocked ==> t !in Step(s, u, w2).blocked && !Waking(At(Step(s, u, w2), u))
  {
    hide LocksOk;
  }

  /** A waiter has at most one waker, and none while it is on the list. */
  lemma OneWaker(s: State, u: Tid, v: Tid, t: Tid)
    requires LocksOk(s) && ListExact(s) && Wakes(s, u, t)
    ensures t !in s.list && (Wakes(s, v, t) ==> u == v)
  {
    HolderIsOwner(s, u);
    HolderIsOwner(s, v);
  }

  // ----- runs -----

  /** One scheduled step: the thread, and what it calls if it is outside. */
  datatype Turn = Turn(t: Tid, call: Call)

  function Run(s: State, trace: seq<Turn>): State {
    if trace == [] then s
    else
      var last := trace[|trace| - 1];
      Step(Run(s, trace[..|trace| - 1]), last.t, last.call)
  }

  lemma {:induction false} RunList(count: int, trace: seq<Turn>)
    ensures LocksOk(Run(Initial(count), trace)) && ListExact(Run(Initial(count), trace))
  {
    hide LocksOk;
    hide ListExact;
    hide Step;
    if trace == [] {
      InitialInv(count);
    } else {
      var before, last := trace[..|trace| - 1], trace[|trace| - 1];
      RunList(count, before);
      StepList(Run(Initial(count), before), last.t, last.call);
    }
  }

  lemma {:induction false} RunInv(count: int, trace: seq<Turn>)
    ensures SlackOk(Run(Initial(count), trace), count) && Balanced(Run(Initial(count), trace), count)
  {
    hide LocksOk;
    hide SlackOk;
    hide Step;
    if trace == [] {
      InitialInv(count);
      assert InBetween(Initial(count)) == {};
    } else {
      var before, last := trace[..|trace| - 1], trace[|trace| - 1];
      RunInv(count, before);
      RunList(count, before);
      hide ListExact;
      hide Balanced;
      var s := Run(Initial(count), before);
      SlackStep(s, last.t, last.call, count);
      BalanceStep(s, last.t, last.call, count);
    }
  }

  /** Over every interleaving and for every initial count: no more threads enter than
      there were slots, signals and waiters taken off the list by broadcasts.  If
      the initial count is not negative and broadcasts took nobody, the waiting list
      is exact and no slot is lost. */
  lemma SemaphoreSafety(count: int, trace: seq<Turn>)
    ensures var s := Run(Initial(count), trace);
      && s.entered <= (if count < 0 then 0 else count) + s.signals + s.taken
      && (s.m.owner == -1 ==> Wanting(s) - Below(count) - s.taken <= |s.list| <= Wanting(s))
      && (count >= 0 && s.taken == 0 && s.m.owner == -1 ==>
            && |s.list| == Wanting(s)
            && s.waits - |s.list| == if s.waits <= count + s.signals then s.waits else count + s.signals)
  {
    hide LocksOk;
    hide ListExact;
    hide Balanced;
    RunInv(count, trace);
    RunList(count, trace);
    var s := Run(Initial(count), trace);
    AdmissionBound(s, count);
    if count >= 0 && s.taken == 0 {
      AdmissionExact(s, count);
    }
  }

  /** The step of `u` takes `t` off the waiting list. */
  predicate Dequeues(s: State, u: Tid, t: Tid) {
    Removing(At(s, u)) && s.list != [] && s.list[0] == t
  }

  /** The step of `u` is a successful make_runnable of `t`. */
  predicate MakesRunnable(s: State, u: Tid, t: Tid) {
    Wakes(s, u, t) && t in s.blocked
  }

  /** The step of `t` is its return from deschedule. */
  predicate Resumes(s: State, u: Tid, t: Tid) {
    u == t && At(s, t).CondBlocked? && t !in s.blocked
  }

  /** How often each of the three happens to `t` along the trace. */
  function Tally(s: State, trace: seq<Turn>, t: Tid): (r: (nat, nat, nat)) {
    if trace == [] then (0, 0, 0)
    else
      var before, u := trace[..|trace| - 1], trace[|trace| - 1].t;
      var (d, w, r) := Tally(s, before, t);
      var s1 := Run(s, before);
      (d + (if Dequeues(s1, u, t) then 1 else 0),
       w + (if MakesRunnable(s1, u, t) then 1 else 0),
       r + (if Resumes(s1, u, t) then 1 else 0))
  }

  /** Who owes a thread what: a waker its make_runnable, the kernel its return. */
  ghost predicate Owed(s: State, t: Tid, d: nat, w: nat, r: nat) {
    && d == w + (if HasWaker(s, t) then 1 else 0)
    && w == r + (if At(s, t).CondBlocked? && t !in s.blocked then 1 else 0)
  }

  /** The books after a step of `u`. */
  ghost predicate OwedAfter(s: State, s': State, u: Tid, t: Tid, d: nat, w: nat, r: nat) {
    Owed(s', t, d + (if Dequeues(s, u, t) then 1 else 0),
         w + (if MakesRunnable(s, u, t) then 1 else 0), r + (if Resumes(s, u, t) then 1 else 0))
  }

  lemma OwedQuiet(s: State, u: Tid, call: Call, t: Tid, d: nat, w: nat, r: nat)
    requires Owed(s, t, d, w, r) && !Loud(At(s, u))
    ensures OwedAfter(s, Step(s, u, call), u, t, d, w, r)
  {
    StepElsewhere(s, u, call);
    QuietEffect(s, u, call);
    hide Step;
    WakersKept(s, Step(s, u, call), u);
    WakersBack(s, Step(s, u, call), t);
  }

  lemma OwedRemove(s: State, u: Tid, call: Call, t: Tid, d: nat, w: nat, r: nat)
    requires LocksOk(s) && ListExact(s) && Owed(s, t, d, w, r) && Removing(At(s, u))
    ensures OwedAfter(s, Step(s, u, call), u, t, d, w, r)
  {
    hide LocksOk;
    StepElsewhere(s, u, call);
    RemoveEffect(s, u, call);
    hide Step;
    if s.list != [] {
      RemoveOwed(s, u, call, t);
    }
    hide ListExact;
  }

  lemma OwedMake(s: State, u: Tid, call: Call, t: Tid, d: nat, w: nat, r: nat)
    requires LocksOk(s) && ListExact(s) && Owed(s, t, d, w, r) && Waking(At(s, u))
    ensures OwedAfter(s, Step(s, u, call), u, t, d, w, r)
  {
    hide LocksOk;
    StepElsewhere(s, u, call);
    MakeEffect(s, u, call);
    hide Step;
    MakeOwed(s, u, call, t);
  }

  lemma OwedWait(s: State, u: Tid, call: Call, t: Tid, d: nat, w: nat, r: nat)
    requires ListExact(s) && Owed(s, t, d, w, r) && (At(s, u).CondAdd? || At(s, u).CondDeschedule? || At(s, u).CondBlocked?)
    ensures OwedAfter(s, Step(s, u, call), u, t, d, w, r)
  {
    hide SignalStep;
    hide CastStep;
    StepElsewhere(s, u, call);
    WakersKept(s, Step(s, u, call), u);
    WakersBack(s, Step(s, u, call), t);
  }

  lemma OwedStep(s: State, u: Tid, call: Call, t: Tid, d: nat, w: nat, r: nat)
    requires LocksOk(s) && ListExact(s) && Owed(s, t, d, w, r)
    ensures OwedAfter(s, Step(s, u, call), u, t, d, w, r)
  {
    hide LocksOk;
    hide ListExact;
    hide Owed;
    hide OwedAfter;
    hide Step;
    if !Loud(At(s, u)) {
      OwedQuiet(s, u, call, t, d, w, r);
    } else if Removing(At(s, u)) {
      OwedRemove(s, u, call, t, d, w, r);
    } else if Waking(At(s, u)) {
      OwedMake(s, u, call, t, d, w, r);
    } else {
      OwedWait(s, u, call, t, d, w, r);
    }
  }

  lemma WakersBack(s: State, s': State, t: Tid)
    requires forall u, w :: Wakes(s', u, w) <==> Wakes(s, u, w)
    ensures HasWaker(s', t) <==> HasWaker(s, t)
  {
    if HasWaker(s', t) {
      var u :| Wakes(s', u, t);
      assert Wakes(s, u, t);
    }
    if HasWaker(s, t) {
      var u :| Wakes(s, u, t);
      assert Wakes(s', u, t);
    }
  }

  lemma RemoveOwed(s: State, u: Tid, call: Call, t: Tid)
    requires LocksOk(s) && ListExact(s) && Removing(At(s, u)) && s.list != []
    ensures var s' := Step(s, u, call);
      && (HasWaker(s', t) <==> HasWaker(s, t) || s.list[0] == t)
      && !(HasWaker(s, t) && s.list[0] == t)
  {
    hide LocksOk;
    var s' := Step(s, u, call);
    StepElsewhere(s, u, call);
    assert Wakes(s', u, s.list[0]) && Waking(At(s', u)) && At(s', u).target == s.list[0];
    assert s.list[0] in s.list;
    hide Step;
    assert Wakes(s', u, s.list[0]);
    forall v | v != u ensures Wakes(s', v, t) <==> Wakes(s, v, t) {
    }
    assert !Wakes(s, u, t) && (Wakes(s', u, t) <==> s.list[0] == t);
  }

  lemma MakeOwed(s: State, u: Tid, call: Call, t: Tid)
    requires LocksOk(s) && ListExact(s) && Waking(At(s, u))
    ensures var s' := Step(s, u, call);
      HasWaker(s', t) <==> HasWaker(s, t) && !MakesRunnable(s, u, t)
    ensures MakesRunnable(s, u, t) ==> HasWaker(s, t)
  {
    hide LocksOk;
    var s', w := Step(s, u, call), At(s, u).target;
    StepElsewhere(s, u, call);
    assert Wakes(s, u, w);
    assert w in s.blocked ==> !Waking(At(s', u));
    assert w !in s.blocked ==> s' == s;
    hide Step;
    forall v ensures Waking(At(s, v)) ==> v == u {
      HolderIsOwner(s, u);
      HolderIsOwner(s, v);
    }
    forall v ensures Wakes(s, v, t) ==> v == u && t == w {
    }
    forall v ensures Wakes(s', v, t) ==> w !in s.blocked {
    }
  }

  /** Over every interleaving each waiter taken off the list gets exactly one
      successful make_runnable, and returns from cond_wait exactly once for it:
      the books balance except for the wake-ups still on their way. */
  lemma {:induction false} EveryWakeUpDelivered(count: int, trace: seq<Turn>, t: Tid)
    ensures var (d, w, r) := Tally(Initial(count), trace, t);
      Owed(Run(Initial(count), trace), t, d, w, r)
  {
    hide LocksOk;
    hide ListExact;
    hide Step;
    var s := Initial(count);
    if trace != [] {
      var before, last := trace[..|trace| - 1], trace[|trace| - 1];
      EveryWakeUpDelivered(count, before, t);
      RunList(count, before);
      hide Owed;
      var (d, w, r) := Tally(s, before, t);
      OwedStep(Run(s, before), last.t, last.call, t, d, w, r);
    }
  }

  // ----- progress -----

  /** While the semaphore's mutex is held some thread can move: its owner, the owner
      of the condition variable's mutex, or the thread being woken. */
  lemma NoDeadlock(s: State) returns (t: Tid)
    requires LocksOk(s) && ListExact(s) && s.m.owner != -1
    ensures forall call :: Step(s, t, call) != s
  {
    t := s.m.owner;
    assert !RolesM(s)(t).Away?;
    if RoleC(At(s, t)).Queued? && s.c.owner != t {
      assert RolesC(s)(t).Queued? && t in s.c.queue;
      var u := s.c.owner;
      assert !RolesC(s)(u).Away?;
      HolderIsOwner(s, u);
      HolderIsOwner(s, t);
      t := u;
    }
    hide LocksOk;
    if Waking(At(s, t)) {
      var w := At(s, t).target;
      assert Wakes(s, t, w);
      if w !in s.blocked {
        t := w;
      }
    }
    Moving(s, t);
  }

  /** The threads that cannot move. */
  predicate Stuck(s: State, t: Tid) {
    var pc := At(s, t);
    || (RoleM(pc).Queued? && s.m.owner != t)
    || (RoleC(pc).Queued? && s.c.owner != t)
    || (pc.CondBlocked? && t in s.blocked)
    || (Removing(pc) && s.list == [])
    || (Waking(pc) && pc.target !in s.blocked)
  }

  lemma Moving(s: State, t: Tid)
    requires !Stuck(s, t)
    ensures forall call :: At(Step(s, t, call), t) != At(s, t)
  {
  }

  // ----- what happens outside the rules -----

  /** Thread `t` takes `k` steps. */
  function Drive(s: State, t: Tid, call: Call, k: nat): State {
    if k == 0 then s else Step(Drive(s, t, call, k - 1), t, call)
  }

  /** Driving a thread is a run. */
  lemma {:induction false} DriveIsRun(s: State, trace: seq<Turn>, t: Tid, call: Call, k: nat) returns (longer: seq<Turn>)
    ensures Run(s, longer) == Drive(Run(s, trace), t, call, k)
  {
    if k == 0 {
      longer := trace;
    } else {
      var before := DriveIsRun(s, trace, t, call, k - 1);
      longer := before + [Turn(t, call)];
      assert longer[..|longer| - 1] == before;
    }
  }

  lemma {:induction false} DriveOn(s: State, t: Tid, call: Call, j: nat, k: nat)
    ensures Drive(s, t, call, j + k) == Drive(Drive(s, t, call, j), t, call, k)
  {
    hide Step;
    if k > 0 {
      DriveOn(s, t, call, j, k - 1);
    }
  }

  lemma DriveTwo(s: State, t: Tid, call: Call)
    ensures Drive(s, t, call, 2) == Step(Step(s, t, call), t, call)
  {
    hide Step;
    assert Drive(s, t, call, 1) == Step(s, t, call);
  }

  lemma DriveFour(s: State, s2: State, s4: State, t: Tid, call: Call)
    requires Step(Step(s, t, call), t, call) == s2 && Step(Step(s2, t, call), t, call) == s4
    ensures Drive(s, t, call, 4) == s4
  {
    hide Step;
    DriveTwo(s, t, call);
    DriveTwo(s2, t, call);
    DriveOn(s, t, call, 2, 2);
  }

  const FREE := UserMutex.Fifo(-1, [])

  /** Nobody holds a lock or waits, and everybody is outside. */
  ghost predicate AtRest(s: State) {
    s.m == FREE && s.c == FREE && s.list == [] && s.blocked == {} && forall t :: At(s, t) == Outside
  }

  function Has(t: Tid): Fifo {
    UserMutex.Fifo(t, [])
  }

  /** Thread `t` has the mutex in sem_wait. */
  function Holds(s: State, t: Tid): State {
    s.(m := Has(t), pc := s.pc[t := WaitDec])
  }

  lemma WaiterLocks(s: State, t: Tid)
    requires s.m == FREE && At(s, t) == Outside
    ensures Step(Step(s, t, Wait), t, Wait) == Holds(s, t)
  {
    hide SignalStep;
    hide CastStep;
    assert s.pc[t := WaitLock][t := WaitDec] == s.pc[t := WaitDec];
  }

  /** ... and has entered. */
  function Entered(s: State, t: Tid): State {
    s.(n := s.n - 1, pc := s.pc[t := Outside], waits := s.waits + 1, entered := s.entered + 1)
  }

  /** ... one step before. */
  function Passed(s: State, t: Tid): State {
    s.(n := s.n - 1, m := Has(t), pc := s.pc[t := WaitUnlock], waits := s.waits + 1)
  }

  lemma WaiterPasses(s: State, t: Tid)
    requires s.n > 0
    ensures Step(Holds(s, t), t, Wait) == Passed(s, t)
  {
    hide SignalStep;
    hide CastStep;
    assert s.pc[t := WaitDec][t := WaitUnlock] == s.pc[t := WaitUnlock];
  }

  lemma WaiterUnlocks(s: State, t: Tid)
    requires s.m == FREE
    ensures Step(Passed(s, t), t, Wait) == Entered(s, t)
  {
    hide SignalStep;
    hide CastStep;
    assert s.pc[t := WaitUnlock][t := Outside] == s.pc[t := Outside];
  }

  /** A wait that finds a slot. */
  lemma WaiterEnters(s: State, t: Tid)
    requires s.m == FREE && At(s, t) == Outside && s.n > 0
    ensures Drive(s, t, Wait, 4) == Entered(s, t)
  {
    hide Step;
    hide Drive;
    WaiterLocks(s, t);
    WaiterPasses(s, t);
    WaiterUnlocks(s, t);
    DriveFour(s, Holds(s, t), Entered(s, t), t, Wait);
  }

  /** Thread 0 has taken the count below zero and is about to register. */
  function Registering(s: State): State {
    s.(n := s.n - 1, m := Has(0), c := Has(0), pc := s.pc[0 := CondAdd], waits := s.waits + 1)
  }

  /** Thread 0 is blocked on the list, and nobody holds a lock. */
  function Blocked0(s: State): State {
    s.(n := s.n - 1, list := [0], blocked := {0}, pc := s.pc[0 := CondBlocked], waits := s.waits + 1)
  }

  lemma WaiterRegisters(s: State)
    requires AtRest(s) && s.n <= 0
    ensures Drive(s, 0, Wait, 4) == Registering(s)
  {
    hide SignalStep;
    hide CastStep;
    hide Drive;
    assert s.pc[0 := WaitDec][0 := CondLock][0 := CondAdd] == s.pc[0 := CondAdd];
    assert Step(Step(Holds(s, 0), 0, Wait), 0, Wait) == Registering(s);
    hide Step;
    WaiterLocks(s, 0);
    DriveFour(s, Holds(s, 0), Registering(s), 0, Wait);
  }

  /** Thread 0 is on the list and about to let go of the condition variable's mutex. */
  function Registered(s: State): State {
    s.(n := s.n - 1, c := Has(0), list := [0], pc := s.pc[0 := CondUnlockC], waits := s.waits + 1)
  }

  lemma WaiterJoins(s: State)
    requires AtRest(s)
    ensures Step(Step(Registering(s), 0, Wait), 0, Wait) == Registered(s)
  {
    hide SignalStep;
    hide CastStep;
    assert s.pc[0 := CondAdd][0 := CondUnlockM][0 := CondUnlockC] == s.pc[0 := CondUnlockC];
  }

  lemma WaiterDeschedules(s: State)
    requires AtRest(s)
    ensures Drive(Registering(s), 0, Wait, 4) == Blocked0(s)
  {
    hide SignalStep;
    hide CastStep;
    hide Drive;
    assert s.pc[0 := CondUnlockC][0 := CondDeschedule][0 := CondBlocked] == s.pc[0 := CondBlocked];
    assert Step(Step(Registered(s), 0, Wait), 0, Wait) == Blocked0(s);
    hide Step;
    WaiterJoins(s);
    DriveFour(Registering(s), Registered(s), Blocked0(s), 0, Wait);
  }

  /** Thread 1 has taken thread 0 off the list in a broadcast. */
  function Freed(s: State): State {
    Blocked0(s).(c := Has(1), list := [], pc := s.pc[0 := CondBlocked][1 := CastMake(0)], taken := s.taken + 1)
  }

  /** Thread 1 has the condition variable's mutex in cond_broadcast. */
  function Casts(s: State): State {
    Blocked0(s).(c := Has(1), pc := s.pc[0 := CondBlocked][1 := CastTest])
  }

  lemma CasterLocks(s: State)
    requires AtRest(s)
    ensures Step(Step(Blocked0(s), 1, Broadcast), 1, Broadcast) == Casts(s)
  {
    hide SignalStep;
    hide WaitStep;
    assert At(s, 1) == Outside && At(Blocked0(s), 1) == Outside;
    var pc := s.pc[0 := CondBlocked];
    assert pc[1 := CastLock][1 := CastTest] == pc[1 := CastTest];
  }

  lemma CasterFrees(s: State)
    requires AtRest(s)
    ensures Drive(Blocked0(s), 1, Broadcast, 4) == Freed(s)
  {
    hide SignalStep;
    hide WaitStep;
    hide Drive;
    var pc := s.pc[0 := CondBlocked];
    assert pc[1 := CastTest][1 := CastRemove][1 := CastMake(0)] == pc[1 := CastMake(0)];
    assert Step(Step(Casts(s), 1, Broadcast), 1, Broadcast) == Freed(s);
    hide Step;
    CasterLocks(s);
    DriveFour(Blocked0(s), Casts(s), Freed(s), 1, Broadcast);
  }

  lemma CasterWakes(s: State)
    requires AtRest(s)
    ensures var s' := Step(Freed(s), 1, Broadcast);
      s'.m == FREE && At(s', 0) == CondBlocked && 0 !in s'.blocked && s'.entered == s.entered && s'.signals == s.signals
  {
    hide SignalStep;
    hide WaitStep;
  }

  /** Thread 0 comes back from cond_wait and enters. */
  lemma WokenEnters(s: State)
    requires s.m == FREE && At(s, 0) == CondBlocked && 0 !in s.blocked
    ensures var s1 := Step(s, 0, Wait);
      var s2 := Step(s1, 0, Wait);
      var s3 := Step(s2, 0, Wait);
      At(s1, 0) == CondRelock && At(s2, 0) == WaitUnlock && s3.entered == s.entered + 1 && s3.signals == s.signals
  {
    hide SignalStep;
    hide CastStep;
  }

  lemma RunOne(s: State, trace: seq<Turn>, t: Tid, call: Call) returns (longer: seq<Turn>)
    ensures Run(s, longer) == Step(Run(s, trace), t, call)
  {
    hide Step;
    longer := trace + [Turn(t, call)];
    assert longer[..|longer| - 1] == trace;
  }

  lemma EnteredRests(s: State, t: Tid)
    requires AtRest(s)
    ensures AtRest(Entered(s, t))
  {
    var s' := Entered(s, t);
    forall u: Tid
      ensures At(s', u) == Outside
    {
      assert At(s, u) == Outside;
    }
  }

  /** Threads 2 to `k` + 1 take a slot each. */
  lemma {:induction false} SlotsTaken(count: int, k: nat) returns (trace: seq<Turn>)
    requires k == 0 || k <= count
    ensures var s := Run(Initial(count), trace);
      AtRest(s) && s.n == count - k && s.entered == k && s.signals == 0
  {
    hide Step;
    if k == 0 {
      trace := [];
    } else {
      var before := SlotsTaken(count, k - 1);
      var s := Run(Initial(count), before);
      WaiterEnters(s, k + 1);
      trace := DriveIsRun(Initial(count), before, k + 1, Wait, 4);
      hide Drive;
      EnteredRests(s, k + 1);
    }
  }

  /** Whatever the initial count, a broadcast lets in one thread more than there were
      slots, without a signal: one thread takes each slot, one blocks, and the broadcast
      wakes it. */
  lemma BroadcastAdmits(count: int) returns (trace: seq<Turn>)
    ensures var s := Run(Initial(count), trace);
      s.entered == (if count < 0 then 0 else count) + 1 && s.signals == 0
  {
    hide Step;
    hide Drive;
    hide AtRest;
    var s := Initial(count);
    trace := SlotsTaken(count, if count < 0 then 0 else count);
    var s0 := Run(s, trace);
    trace := DriveIsRun(s, trace, 0, Wait, 4);
    WaiterRegisters(s0);
    trace := DriveIsRun(s, trace, 0, Wait, 4);
    WaiterDeschedules(s0);
    trace := DriveIsRun(s, trace, 1, Broadcast, 4);
    CasterFrees(s0);
    trace := RunOne(s, trace, 1, Broadcast);
    CasterWakes(s0);
    WokenEnters(Run(s, trace));
    trace := RunOne(s, trace, 0, Wait);
    trace := RunOne(s, trace, 0, Wait);
    trace := RunOne(s, trace, 0, Wait);
  }

  /** Thread 1 has the mutex and is about to raise the count. */
  function Arrived(s: State): State {
    Blocked0(s).(m := Has(1), pc := s.pc[0 := CondBlocked][1 := SignalInc])
  }

  /** Thread 1 has raised the count and is about to look at the list. */
  function Looking(s: State): State {
    Blocked0(s).(n := s.n, m := Has(1), c := Has(1), pc := s.pc[0 := CondBlocked][1 := SignalTest], signals := s.signals + 1)
  }

  lemma SignallerLooks(s: State)
    requires AtRest(s) && s.n <= 0
    ensures Drive(Blocked0(s), 1, Signal, 4) == Looking(s)
  {
    hide WaitStep;
    hide CastStep;
    hide Drive;
    var s1 := Blocked0(s);
    assert At(s, 1) == Outside && At(s1, 1) == Outside;
    assert s1.pc[1 := SignalLock][1 := SignalInc] == s1.pc[1 := SignalInc];
    assert Step(Step(s1, 1, Signal), 1, Signal) == Arrived(s);
    SignallerCounts(s);
    hide Step;
    DriveFour(s1, Arrived(s), Looking(s), 1, Signal);
  }

  lemma SignallerCounts(s: State)
    requires AtRest(s) && s.n <= 0
    ensures Step(Step(Arrived(s), 1, Signal), 1, Signal) == Looking(s)
  {
    hide WaitStep;
    hide CastStep;
  }

  /** Thread 1 has woken thread 0 and is about to leave. */
  function Signalled(s: State): State {
    Looking(s).(c := FREE, list := [], blocked := {}, pc := s.pc[0 := CondBlocked][1 := SignalUnlock])
  }

  /** Thread 1 has taken thread 0 off the list. */
  function Waking0(s: State): State {
    Looking(s).(list := [], pc := s.pc[0 := CondBlocked][1 := SignalMake(0)])
  }

  lemma SignallerTakes(s: State)
    requires AtRest(s)
    ensures Step(Step(Looking(s), 1, Signal), 1, Signal) == Waking0(s)
  {
    hide WaitStep;
    hide CastStep;
    var pc := s.pc[0 := CondBlocked];
    var s1 := Looking(s).(pc := pc[1 := SignalRemove]);
    assert pc[1 := SignalTest][1 := SignalRemove] == pc[1 := SignalRemove];
    assert Step(Looking(s), 1, Signal) == s1;
    assert pc[1 := SignalRemove][1 := SignalMake(0)] == pc[1 := SignalMake(0)];
  }

  /** Thread 0 is runnable, and thread 1 about to let go of the inner mutex. */
  function Made(s: State): State {
    Waking0(s).(blocked := {}, pc := s.pc[0 := CondBlocked][1 := SignalUnlockC])
  }

  lemma SignallerMakes(s: State)
    requires AtRest(s)
    ensures Step(Waking0(s), 1, Signal) == Made(s)
  {
    hide WaitStep;
    hide CastStep;
    var pc := s.pc[0 := CondBlocked];
    assert pc[1 := SignalMake(0)][1 := SignalUnlockC] == pc[1 := SignalUnlockC];
  }

  lemma SignallerUnlocks(s: State)
    requires AtRest(s)
    ensures Step(Made(s), 1, Signal) == Signalled(s)
  {
    hide WaitStep;
    hide CastStep;
    var pc := s.pc[0 := CondBlocked];
    assert pc[1 := SignalUnlockC][1 := SignalUnlock] == pc[1 := SignalUnlock];
  }

  lemma SignallerWakes(s: State)
    requires AtRest(s)
    ensures Drive(Looking(s), 1, Signal, 4) == Signalled(s)
  {
    hide Step;
    hide Drive;
    SignallerMakes(s);
    SignallerUnlocks(s);
    SignallerTakes(s);
    DriveFour(Looking(s), Waking0(s), Signalled(s), 1, Signal);
  }

  lemma SignallerLeaves(s: State)
    requires At(s, 1) == SignalUnlock && s.m == Has(1) && At(s, 0) == CondBlocked
    ensures var s' := Step(s, 1, Signal);
      s'.m == FREE && At(s', 0) == CondBlocked && s'.blocked == s.blocked && s'.entered == s.entered && s'.signals == s.signals
  {
    hide WaitStep;
    hide CastStep;
  }

  /** With a negative initial count a signal lets a waiter in although the count has
      not come up to zero: more enter than initial count plus signals. */
  lemma NegativeCountAdmits(count: int) returns (trace: seq<Turn>)
    requires count < 0
    ensures var s := Run(Initial(count), trace);
      s.entered == 1 && s.signals == 1 && s.entered > count + s.signals
  {
    hide Step;
    hide Drive;
    var s := Initial(count);
    trace := DriveIsRun(s, [], 0, Wait, 4);
    WaiterRegisters(s);
    trace := DriveIsRun(s, trace, 0, Wait, 4);
    WaiterDeschedules(s);
    trace := DriveIsRun(s, trace, 1, Signal, 4);
    SignallerLooks(s);
    trace := DriveIsRun(s, trace, 1, Signal, 4);
    SignallerWakes(s);
    SignallerLeaves(Run(s, trace));
    trace := RunOne(s, trace, 1, Signal);
    WokenEnters(Run(s, trace));
    trace := RunOne(s, trace, 0, Wait);
    trace := RunOne(s, trace, 0, Wait);
    trace := RunOne(s, trace, 0, Wait);
  }
}

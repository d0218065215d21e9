/** The user-level mutex (user/libthread/mutex.c) as a step machine.  Each
    testandset, test, list operation and store is one step of one thread, and any
    thread may take the next step.  Only the thread in the critical section
    unlocks. */
module UserMutex {
  import Collections

  type Tid = nat

  /** Where a thread is in mutex_lock or mutex_unlock. */
  datatype Pc =
    | Idle
    // mutex_lock
    | LockSpin                    // testandset of the interaction flag
    | LockTest                    // owner == -1 ?
    | LockTake                    // owner = gettid()
    | LockLoop(waiting: bool)     // owner != id ?
    | LockAdd                     // list_addLast
    | LockDrop                    // release the flag ...
    | LockYield                   // ... yield to the owner ...
    | LockRespin                  // ... and take the flag again
    | LockRelease                 // release the flag, keep the mutex
    | Critical
    // mutex_unlock
    | UnlockSpin
    | UnlockTest                  // owner == -1 ?
    | UnlockAbort
    | UnlockRemove                // list_removeHead
    | UnlockSet(next: int)        // owner = next, -1 for nobody
    | UnlockDrop
    | UnlockYield

  /** The mutex and the threads; threads not in `pc` are idle. */
  datatype State = State(flag: bool, owner: int, queue: seq<Tid>, pc: map<Tid, Pc>)

  function At(s: State, t: Tid): Pc {
    if t in s.pc then s.pc[t] else Idle
  }

  function Goto(s: State, t: Tid, pc: Pc): State {
    s.(pc := s.pc[t := pc])
  }

  /** testandset: take the flag and go on, or stay. */
  function TestAndSet(s: State, t: Tid, pc: Pc): State {
    if s.flag then s else Goto(s, t, pc).(flag := true)
  }

  /** The next step of thread `t`. */
  function Step(s: State, t: Tid): State {
    match At(s, t)
    case Idle => Goto(s, t, LockSpin)
    case LockSpin => TestAndSet(s, t, LockTest)
    case LockTest => Goto(s, t, if s.owner == -1 then LockTake else LockLoop(false))
    case LockTake => Goto(s, t, LockRelease).(owner := t)
    case LockLoop(waiting) =>
      Goto(s, t, if s.owner == t then LockRelease else if waiting then LockDrop else LockAdd)
    case LockAdd => Goto(s, t, LockDrop).(queue := s.queue + [t])
    case LockDrop => Goto(s, t, LockYield).(flag := false)
    case LockYield => Goto(s, t, LockRespin)
    case LockRespin => TestAndSet(s, t, LockLoop(true))
    case LockRelease => Goto(s, t, Critical).(flag := false)
    case Critical => Goto(s, t, UnlockSpin)
    case UnlockSpin => TestAndSet(s, t, UnlockTest)
    case UnlockTest => Goto(s, t, if s.owner == -1 then UnlockAbort else UnlockRemove)
    case UnlockAbort => Goto(s, t, Idle).(flag := false)
    case UnlockRemove =>
      if s.queue == [] then Goto(s, t, UnlockSet(-1))
      else Goto(s, t, UnlockSet(s.queue[0])).(queue := s.queue[1..])
    case UnlockSet(next) => Goto(s, t, UnlockDrop).(owner := next)
    case UnlockDrop => Goto(s, t, UnlockYield).(flag := false)
    case UnlockYield => Goto(s, t, Idle)
  }

  /** mutex_init, with every thread idle. */
  const INITIAL := State(false, -1, [], map[])

  // ----- the invariant -----

  predicate HoldsFlag(pc: Pc) {
    || pc.LockTest? || pc.LockTake? || pc.LockLoop? || pc.LockAdd? || pc.LockDrop? || pc.LockRelease?
    || pc.UnlockTest? || pc.UnlockAbort? || pc.UnlockRemove? || pc.UnlockSet? || pc.UnlockDrop?
  }

  /** The thread owns the mutex and has not handed it over. */
  predicate Owns(pc: Pc) {
    || pc.LockRelease? || pc.Critical? || pc.UnlockSpin? || pc.UnlockTest? || pc.UnlockRemove? || pc.UnlockSet?
  }

  /** The thread has queued up and waits to be made the owner. */
  predicate Waits(pc: Pc) {
    pc.LockDrop? || pc.LockYield? || pc.LockRespin? || pc == LockLoop(true)
  }

  ghost predicate OneFlagHolder(s: State) {
    && (forall t, u :: HoldsFlag(At(s, t)) && HoldsFlag(At(s, u)) ==> t == u)
    && (forall t :: HoldsFlag(At(s, t)) ==> s.flag)
    && (s.flag ==> exists t :: HoldsFlag(At(s, t)))
  }

  ghost predicate OwnerInside(s: State) {
    && s.owner >= -1
    && (forall t :: Owns(At(s, t)) ==> s.owner == t)
    && (s.owner >= 0 ==> Owns(At(s, s.owner)) || Waits(At(s, s.owner)))
    && (forall t :: At(s, t).LockTake? ==> s.owner == -1)
    && (forall t :: At(s, t) == LockLoop(false) || At(s, t).LockAdd? ==> s.owner != -1)
    && (forall t :: !At(s, t).UnlockAbort?)
  }

  /** Thread `u` is about to make `t` the owner. */
  predicate HandsTo(s: State, u: Tid, t: Tid) {
    At(s, u) == UnlockSet(t)
  }

  ghost predicate QueueExact(s: State) {
    && Collections.NoDuplicates(s.queue)
    && (forall t :: t in s.queue ==> Waits(At(s, t)) && s.owner != t)
    && (forall t :: Waits(At(s, t)) ==> t in s.queue || s.owner == t || exists u :: HandsTo(s, u, t))
    && (s.owner == -1 ==> s.queue == [])
    && (forall u :: At(s, u).UnlockSet? ==>
          var n := At(s, u).next;
          && n >= -1
          && (n == -1 ==> s.queue == [])
          && (n >= 0 ==> n !in s.queue && n != u && Waits(At(s, n))))
  }

  ghost predicate Inv(s: State) {
    OneFlagHolder(s) && OwnerInside(s) && QueueExact(s)
  }

  lemma InitialInv()
    ensures Inv(INITIAL)
  {
  }

  lemma StepElsewhere(s: State, t: Tid)
    ensures forall u :: u != t ==> At(Step(s, t), u) == At(s, u)
  {
  }

  /** The flag and the thread's program point change together. */
  lemma FlagEffect(s: State, t: Tid)
    ensures var s' := Step(s, t);
      || (s'.flag == s.flag && HoldsFlag(At(s', t)) == HoldsFlag(At(s, t)))
      || (!s.flag && s'.flag && HoldsFlag(At(s', t)))
      || (!s'.flag && HoldsFlag(At(s, t)) && !HoldsFlag(At(s', t)))
  {
  }

  lemma FlagStep(s: State, t: Tid)
    requires OneFlagHolder(s)
    ensures OneFlagHolder(Step(s, t))
  {
    FlagEffect(s, t);
    StepElsewhere(s, t);
    hide Step;
    hide HoldsFlag;
    hide At;
    var s' := Step(s, t);
    if s'.flag && !HoldsFlag(At(s', t)) {
      var u :| HoldsFlag(At(s, u));
      assert HoldsFlag(At(s', u));
    }
  }

  /** The steps that change the owner or the queue. */
  predicate Loud(pc: Pc) {
    pc.LockTake? || pc.LockAdd? || pc.UnlockRemove? || pc.UnlockSet?
  }

  /** What the invariant says about the thread that steps. */
  ghost predicate PointOk(s: State, t: Tid) {
    var pc := At(s, t);
    && s.owner >= -1
    && (Owns(pc) ==> s.owner == t)
    && (s.owner == t ==> Owns(pc) || Waits(pc))
    && (pc.LockTake? ==> s.owner == -1)
    && (pc == LockLoop(false) || pc.LockAdd? ==> s.owner != -1)
    && !pc.UnlockAbort?
  }

  lemma QuietEffect(s: State, t: Tid)
    requires PointOk(s, t) && !Loud(At(s, t))
    ensures var s', pc, pc' := Step(s, t), At(s, t), At(Step(s, t), t);
      && s'.owner == s.owner && s'.queue == s.queue
      && !pc.UnlockSet? && !pc'.UnlockSet?
      && (Owns(pc) ==> Owns(pc'))
      && (Waits(pc) ==> Waits(pc') || Owns(pc'))
      && (Waits(pc') ==> Waits(pc))
      && PointOk(s', t)
  {
  }

  lemma QuietStep(s: State, t: Tid)
    requires Inv(s) && !Loud(At(s, t))
    ensures OwnerInside(Step(s, t)) && QueueExact(Step(s, t))
  {
    assert PointOk(s, t);
    QuietEffect(s, t);
    StepElsewhere(s, t);
    hide Step;
    hide Owns;
    hide Waits;
    hide At;
    var s' := Step(s, t);
    forall w | Waits(At(s', w)) ensures w in s'.queue || s'.owner == w || exists u :: HandsTo(s', u, w) {
      assert Waits(At(s, w));
      if w !in s.queue && s.owner != w {
        var u :| HandsTo(s, u, w);
        assert HandsTo(s', u, w);
      }
    }
  }

  /** A thread that steps through a point where it holds the flag is the only one
      that does. */
  lemma NobodyElse(s: State, t: Tid)
    requires OneFlagHolder(s) && HoldsFlag(At(s, t))
    ensures forall u :: u != t ==> !HoldsFlag(At(s, u)) && !At(s, u).UnlockSet? && !At(s, u).LockTake? && !At(s, u).LockLoop? && !At(s, u).LockAdd?
  {
    forall u | u != t ensures !HoldsFlag(At(s, u)) {
    }
  }

  lemma TakeStep(s: State, t: Tid)
    requires Inv(s) && At(s, t).LockTake?
    ensures OwnerInside(Step(s, t)) && QueueExact(Step(s, t))
  {
    StepElsewhere(s, t);
    NobodyElse(s, t);
    var s' := Step(s, t);
    assert At(s', t) == LockRelease && s'.owner == t && s'.queue == s.queue == [];
    hide Step;
    hide At;
    forall u ensures !HandsTo(s, u, t) {
    }
  }

  lemma AddStep(s: State, t: Tid)
    requires Inv(s) && At(s, t).LockAdd?
    ensures OwnerInside(Step(s, t)) && QueueExact(Step(s, t))
  {
    StepElsewhere(s, t);
    NobodyElse(s, t);
    var s' := Step(s, t);
    assert At(s', t) == LockDrop && s'.owner == s.owner && s'.queue == s.queue + [t];
    assert t !in s.queue && s.owner != t && s.owner != -1;
    hide Step;
    hide At;
    forall w | Waits(At(s', w)) ensures w in s'.queue || s'.owner == w || exists u :: HandsTo(s', u, w) {
      assert forall u :: !HandsTo(s, u, w);
    }
  }

  lemma RemoveStep(s: State, t: Tid)
    requires Inv(s) && At(s, t).UnlockRemove?
    ensures OwnerInside(Step(s, t)) && QueueExact(Step(s, t))
  {
    StepElsewhere(s, t);
    NobodyElse(s, t);
    var s' := Step(s, t);
    var n := if s.queue == [] then -1 else s.queue[0];
    assert At(s', t) == UnlockSet(n) && s'.owner == s.owner == t && s'.queue == if s.queue == [] then [] else s.queue[1..];
    hide Step;
    hide At;
    forall w | Waits(At(s', w)) ensures w in s'.queue || s'.owner == w || exists u :: HandsTo(s', u, w) {
      if w == n {
        assert HandsTo(s', t, w);
      }
      assert forall u :: !HandsTo(s, u, w);
    }
  }

  lemma SetStep(s: State, t: Tid)
    requires Inv(s) && At(s, t).UnlockSet?
    ensures OwnerInside(Step(s, t)) && QueueExact(Step(s, t))
  {
    StepElsewhere(s, t);
    NobodyElse(s, t);
    var s' := Step(s, t);
    var n := At(s, t).next;
    assert At(s', t) == UnlockDrop && s'.owner == n && s'.queue == s.queue && s.owner == t;
    hide Step;
    hide At;
    forall w | Waits(At(s', w)) ensures w in s'.queue || s'.owner == w || exists u :: HandsTo(s', u, w) {
      assert forall u :: HandsTo(s, u, w) ==> u == t;
    }
  }

  lemma StepInv(s: State, t: Tid)
    requires Inv(s)
    ensures Inv(Step(s, t))
  {
    hide Step;
    FlagStep(s, t);
    if !Loud(At(s, t)) {
      QuietStep(s, t);
    } else if At(s, t).LockTake? {
      TakeStep(s, t);
    } else if At(s, t).LockAdd? {
      AddStep(s, t);
    } else if At(s, t).UnlockRemove? {
      RemoveStep(s, t);
    } else {
      SetStep(s, t);
    }
  }

  // ----- what the mutex guarantees -----

  /** At most one thread is in the critical section, and it is the owner; a free
      mutex has nobody waiting; nobody waits twice. */
  lemma MutualExclusion(s: State, t: Tid, u: Tid)
    requires Inv(s) && At(s, t).Critical? && At(s, u).Critical?
    ensures t == u && s.owner == t && Collections.NoDuplicates(s.queue)
  {
    assert Owns(At(s, t)) && Owns(At(s, u));
  }

  /** How many more steps a thread keeps the interaction flag. */
  function FlagSteps(pc: Pc): nat {
    match pc
    case LockTest => 4
    case LockLoop(_) => 3
    case LockTake => 2
    case LockAdd => 2
    case LockDrop => 1
    case LockRelease => 1
    case UnlockTest => 4
    case UnlockRemove => 3
    case UnlockSet(_) => 2
    case UnlockAbort => 1
    case UnlockDrop => 1
    case _ => 0
  }

  /** The flag holder never has to wait: each of its steps brings it closer to
      releasing the flag, which takes at most four. */
  lemma FlagReleasedSoon(s: State, t: Tid)
    requires HoldsFlag(At(s, t)) && s.flag
    ensures FlagSteps(At(s, t)) <= 4
    ensures var s' := Step(s, t);
      FlagSteps(At(s', t)) < FlagSteps(At(s, t)) && (FlagSteps(At(s', t)) == 0 <==> !s'.flag || !HoldsFlag(At(s', t)))
  {
  }

  // ----- the first-come first-served lock it implements -----

  /** A lock with an owner, -1 for nobody, and a queue. */
  datatype Fifo = Fifo(owner: int, queue: seq<Tid>)

  datatype Event = Nothing | Acquire | Enqueue | Release

  ghost predicate FifoNext(a: Fifo, t: Tid, event: Event, a': Fifo) {
    match event
    case Nothing => a' == a
    case Acquire => a == Fifo(-1, []) && a' == Fifo(t, [])
    case Enqueue => a.owner != -1 && a.owner != t && t !in a.queue && a' == a.(queue := a.queue + [t])
    case Release =>
      && a.owner == t
      && a' == if a.queue == [] then Fifo(-1, []) else Fifo(a.queue[0], a.queue[1..])
  }

  /** The event a step of `t` stands for. */
  function EventOf(s: State, t: Tid): Event {
    match At(s, t)
    case LockTake => Acquire
    case LockAdd => Enqueue
    case UnlockSet(_) => Release
    case _ => Nothing
  }

  ghost predicate Handing(s: State) {
    exists u :: At(s, u).UnlockSet? && At(s, u).next >= 0
  }

  /** The waiter taken off the list but not yet made the owner. */
  ghost function InHand(s: State): seq<Tid> {
    if Handing(s) then var u :| At(s, u).UnlockSet? && At(s, u).next >= 0; [At(s, u).next] else []
  }

  lemma InHandIs(s: State, u: Tid)
    requires OneFlagHolder(s) && At(s, u).UnlockSet?
    ensures InHand(s) == if At(s, u).next >= 0 then [At(s, u).next] else []
  {
    NobodyElse(s, u);
  }

  lemma InHandEmpty(s: State)
    requires forall u :: !At(s, u).UnlockSet?
    ensures InHand(s) == []
  {
  }

  /** The lock the state stands for. */
  ghost function Abstract(s: State): Fifo {
    Fifo(s.owner, InHand(s) + s.queue)
  }

  lemma QuietInHand(s: State, t: Tid)
    requires Inv(s) && !Loud(At(s, t))
    ensures InHand(Step(s, t)) == InHand(s)
  {
    assert PointOk(s, t);
    QuietEffect(s, t);
    StepElsewhere(s, t);
    FlagStep(s, t);
    hide Step;
    hide At;
    var s' := Step(s, t);
    if u :| At(s, u).UnlockSet? {
      InHandIs(s, u);
      InHandIs(s', u);
    } else {
      forall u ensures !At(s', u).UnlockSet? {
      }
      InHandEmpty(s);
      InHandEmpty(s');
    }
  }

  lemma QuietRefines(s: State, t: Tid)
    requires Inv(s) && !Loud(At(s, t))
    ensures FifoNext(Abstract(s), t, EventOf(s, t), Abstract(Step(s, t)))
  {
    hide InHand;
    hide Step;
    assert PointOk(s, t);
    QuietEffect(s, t);
    QuietInHand(s, t);
  }

  lemma LoudRefines(s: State, t: Tid)
    requires Inv(s) && Inv(Step(s, t)) && Loud(At(s, t))
    ensures FifoNext(Abstract(s), t, EventOf(s, t), Abstract(Step(s, t)))
  {
    if At(s, t).UnlockRemove? {
      RemoveRefines(s, t);
    } else if At(s, t).UnlockSet? {
      SetRefines(s, t);
    } else {
      PlainRefines(s, t);
    }
  }

  lemma RemoveRefines(s: State, t: Tid)
    requires Inv(s) && Inv(Step(s, t)) && At(s, t).UnlockRemove?
    ensures FifoNext(Abstract(s), t, EventOf(s, t), Abstract(Step(s, t)))
  {
    hide InHand;
    var s' := Step(s, t);
    StepElsewhere(s, t);
    NobodyElse(s, t);
    InHandEmpty(s);
    InHandIs(s', t);
    assert s.queue != [] ==> [s.queue[0]] + s.queue[1..] == s.queue;
  }

  lemma SetRefines(s: State, t: Tid)
    requires Inv(s) && Inv(Step(s, t)) && At(s, t).UnlockSet?
    ensures FifoNext(Abstract(s), t, EventOf(s, t), Abstract(Step(s, t)))
  {
    hide InHand;
    var s' := Step(s, t);
    StepElsewhere(s, t);
    NobodyElse(s, t);
    InHandIs(s, t);
    InHandEmpty(s');
    var n := At(s, t).next;
    assert n >= 0 ==> ([n] + s.queue)[1..] == s.queue;
  }

  lemma PlainRefines(s: State, t: Tid)
    requires Inv(s) && Inv(Step(s, t)) && Loud(At(s, t)) && !At(s, t).UnlockRemove? && !At(s, t).UnlockSet?
    ensures FifoNext(Abstract(s), t, EventOf(s, t), Abstract(Step(s, t)))
  {
    hide InHand;
    StepElsewhere(s, t);
    NobodyElse(s, t);
    InHandEmpty(s);
    InHandEmpty(Step(s, t));
  }

  /** Every step of the mutex is a step of the lock, or invisible. */
  lemma StepRefinesFifo(s: State, t: Tid)
    requires Inv(s)
    ensures Inv(Step(s, t))
    ensures FifoNext(Abstract(s), t, EventOf(s, t), Abstract(Step(s, t)))
  {
    hide Step;
    hide FifoNext;
    StepInv(s, t);
    if !Loud(At(s, t)) {
      QuietRefines(s, t);
    } else {
      LoudRefines(s, t);
    }
  }

  // ----- runs -----

  /** The state after the threads in `trace` have taken their steps, in order. */
  function Run(s: State, trace: seq<Tid>): State {
    if trace == [] then s else Step(Run(s, trace[..|trace| - 1]), trace[|trace| - 1])
  }

  /** How often the mutex is handed over, or freed, along the trace. */
  function Releases(s: State, trace: seq<Tid>): nat {
    if trace == [] then 0
    else
      var before := trace[..|trace| - 1];
      Releases(s, before) + if EventOf(Run(s, before), trace[|trace| - 1]).Release? then 1 else 0
  }

  lemma {:induction false} RunInv(s: State, trace: seq<Tid>)
    requires Inv(s)
    ensures Inv(Run(s, trace))
  {
    if trace != [] {
      RunInv(s, trace[..|trace| - 1]);
      StepInv(Run(s, trace[..|trace| - 1]), trace[|trace| - 1]);
    }
  }

  /** Over every interleaving: mutual exclusion, and a free mutex has an empty
      wait list without duplicates. */
  lemma RunSafety(trace: seq<Tid>)
    ensures var s := Run(INITIAL, trace);
      && (forall t, u :: At(s, t).Critical? && At(s, u).Critical? ==> t == u)
      && (s.owner == -1 ==> s.queue == [])
      && Collections.NoDuplicates(s.queue)
  {
    InitialInv();
    RunInv(INITIAL, trace);
    var s := Run(INITIAL, trace);
    forall t, u | At(s, t).Critical? && At(s, u).Critical? ensures t == u {
      MutualExclusion(s, t, u);
    }
  }

  /** The place of thread `t`, `k` places from the head, after `h` releases. */
  ghost predicate Place(a: Fifo, t: Tid, k: nat, h: nat) {
    && (h <= k ==> k - h < |a.queue| && a.queue[k - h] == t && a.owner != t)
    && (h == k + 1 ==> a.owner == t)
  }

  lemma PlaceStep(a: Fifo, u: Tid, event: Event, a': Fifo, t: Tid, k: nat, h: nat)
    requires FifoNext(a, u, event, a') && Place(a, t, k, h)
    requires Collections.NoDuplicates(a.queue) && (forall w :: w in a.queue ==> a.owner != w)
    ensures Place(a', t, k, h + if event.Release? then 1 else 0)
  {
  }

  lemma AbstractSound(s: State)
    requires Inv(s)
    ensures Collections.NoDuplicates(Abstract(s).queue) && (forall w :: w in Abstract(s).queue ==> s.owner != w)
  {
    if u :| At(s, u).UnlockSet? {
      InHandIs(s, u);
      assert Owns(At(s, u));
    } else {
      InHandEmpty(s);
    }
  }

  /** First come, first served: a waiter with `k` threads ahead of it becomes the
      owner at exactly the (k+1)-th release, on every interleaving; until then it
      moves up one place per release, and it stays the owner until it releases
      the mutex itself. */
  lemma {:induction false} ExactHandOff(s: State, trace: seq<Tid>, t: Tid, k: nat)
    requires Inv(s) && k < |Abstract(s).queue| && Abstract(s).queue[k] == t
    ensures Place(Abstract(Run(s, trace)), t, k, Releases(s, trace))
  {
    hide Step;
    hide Inv;
    hide InHand;
    hide FifoNext;
    hide EventOf;
    AbstractSound(s);
    assert t in Abstract(s).queue;
    if trace != [] {
      var before, u := trace[..|trace| - 1], trace[|trace| - 1];
      ExactHandOff(s, before, t, k);
      RunInv(s, before);
      var s1 := Run(s, before);
      StepRefinesFifo(s1, u);
      AbstractSound(s1);
      PlaceStep(Abstract(s1), u, EventOf(s1, u), Abstract(Run(s, trace)), t, k, Releases(s, before));
    }
  }

  // ----- the owner gets in -----

  /** How many steps a thread that has been made the owner is away from the critical
      section. */
  function Away(pc: Pc): nat {
    match pc
    case LockDrop => 5
    case LockYield => 4
    case LockRespin => 3
    case LockLoop(_) => 2
    case LockRelease => 1
    case _ => 0
  }

  /** The owner is on its way in, or there. */
  predicate Entering(pc: Pc) {
    Waits(pc) || pc.LockRelease? || pc.Critical?
  }

  /** Steps of `t` along the trace that get somewhere: those of a spinning thread do
      not. */
  function Moves(s: State, trace: seq<Tid>, t: Tid): nat {
    if trace == [] then 0
    else
      var before := Run(s, trace[..|trace| - 1]);
      Moves(s, trace[..|trace| - 1], t) + if trace[|trace| - 1] == t && Step(before, t) != before then 1 else 0
  }

  lemma EnteringStep(s: State, t: Tid)
    requires Inv(s) && s.owner == t && Entering(At(s, t)) && !At(s, t).Critical?
    ensures var s' := Step(s, t);
      && s'.owner == t && Entering(At(s', t))
      && (s' == s <==> At(s, t).LockRespin? && s.flag)
      && (s' != s ==> Away(At(s', t)) == Away(At(s, t)) - 1)
      && (Away(At(s', t)) == 0 ==> At(s', t).Critical?)
  {
    StepDiffers(s, t);
  }

  lemma StepDiffers(s: State, t: Tid)
    ensures At(Step(s, t), t) != At(s, t) ==> Step(s, t) != s
  {
  }

  lemma OthersKeepOwner(s: State, t: Tid, u: Tid)
    requires Inv(s) && s.owner == t && u != t
    ensures Step(s, u).owner == t && At(Step(s, u), t) == At(s, t)
  {
    StepElsewhere(s, u);
    assert PointOk(s, u);
  }

  /** Over every interleaving: a waiter that has been made the owner gets one step closer
      to the critical section with each step it takes, whatever the others do, and is
      in it after at most five. */
  lemma {:induction false} OwnerEnters(s: State, trace: seq<Tid>, t: Tid)
    requires Inv(s) && s.owner == t && Waits(At(s, t)) && Moves(s, trace, t) <= Away(At(s, t))
    ensures var s' := Run(s, trace);
      && s'.owner == t && Entering(At(s', t)) && Away(At(s', t)) == Away(At(s, t)) - Moves(s, trace, t)
      && (At(s', t).Critical? <==> Moves(s, trace, t) == Away(At(s, t)))
    ensures Away(At(s, t)) <= 5
  {
    hide Step;
    hide Inv;
    if trace != [] {
      var before, u := trace[..|trace| - 1], trace[|trace| - 1];
      var s1 := Run(s, before);
      OwnerEnters(s, before, t);
      RunInv(s, before);
      if u != t {
        OthersKeepOwner(s1, t, u);
      } else if !At(s1, t).Critical? {
        EnteringStep(s1, t);
      } else {
        CriticalLeaves(s1, t);
      }
    }
  }

  lemma CriticalLeaves(s: State, t: Tid)
    requires At(s, t).Critical?
    ensures Step(s, t) != s
  {
    StepDiffers(s, t);
  }

  // ----- calls that nobody interrupts -----

  /** Thread `t` takes `k` steps. */
  function Alone(s: State, t: Tid, k: nat): State
    decreases k
  {
    if k == 0 then s else Alone(Step(s, t), t, k - 1)
  }

  /** Thread `t` is at `pc`, and has or has not the flag. */
  function Put(s: State, t: Tid, pc: Pc, flag: bool): State {
    s.(flag := flag, pc := s.pc[t := pc])
  }

  /** mutex_lock up to the test of the owner. */
  lemma LockStarts(s: State, t: Tid)
    requires At(s, t) == Idle && !s.flag
    ensures Step(Step(s, t), t) == Put(s, t, LockTest, true)
  {
    assert s.pc[t := LockSpin][t := LockTest] == s.pc[t := LockTest];
  }

  /** mutex_lock on a free mutex takes it, in five steps, and does nothing else. */
  lemma LockFree(s: State, t: Tid)
    requires At(s, t) == Idle && !s.flag && s.owner == -1
    ensures Alone(s, t, 5) == s.(owner := t, pc := s.pc[t := Critical])
  {
    LockStarts(s, t);
    var s2 := Put(s, t, LockTest, true);
    var s4 := Put(s, t, LockRelease, true).(owner := t);
    assert s.pc[t := LockTest][t := LockTake][t := LockRelease] == s.pc[t := LockRelease];
    assert Step(Step(s2, t), t) == s4;
    assert s.pc[t := LockRelease][t := Critical] == s.pc[t := Critical];
    assert Step(s4, t) == s.(owner := t, pc := s.pc[t := Critical]);
    hide Step;
    assert Alone(s, t, 5) == Alone(Step(s, t), t, 4) == Alone(s2, t, 3) == Alone(Step(s2, t), t, 2) == Alone(s4, t, 1) == Step(s4, t);
  }

  /** mutex_lock on a mutex that another thread owns puts the caller at the end of the
      list and lets go of the flag, in six steps. */
  lemma LockTaken(s: State, t: Tid)
    requires At(s, t) == Idle && !s.flag && s.owner != -1 && s.owner != t
    ensures Alone(s, t, 6) == s.(queue := s.queue + [t], pc := s.pc[t := LockYield])
  {
    LockStarts(s, t);
    var s2, s4 := Put(s, t, LockTest, true), Put(s, t, LockAdd, true);
    var s6 := s.(queue := s.queue + [t], pc := s.pc[t := LockYield]);
    assert s.pc[t := LockTest][t := LockLoop(false)][t := LockAdd] == s.pc[t := LockAdd];
    assert Step(Step(s2, t), t) == s4;
    assert s.pc[t := LockAdd][t := LockDrop][t := LockYield] == s.pc[t := LockYield];
    assert Step(Step(s4, t), t) == s6;
    hide Step;
    assert Alone(s, t, 6) == Alone(Step(s, t), t, 5) == Alone(s2, t, 4) == Alone(Step(s2, t), t, 3) == Alone(s4, t, 2)
        == Alone(Step(s4, t), t, 1) == s6;
  }

  /** A waiter that is not the owner looks and goes back to where it was. */
  lemma WaiterLooks(s: State, t: Tid)
    requires At(s, t) == LockYield && !s.flag && s.owner != t
    ensures Alone(s, t, 4) == s
  {
    var s2 := Put(s, t, LockLoop(true), true);
    assert s.pc[t := LockRespin][t := LockLoop(true)] == s.pc[t := LockLoop(true)];
    assert Step(Step(s, t), t) == s2;
    assert s.pc[t := LockLoop(true)][t := LockDrop][t := LockYield] == s.pc;
    assert Step(Step(s2, t), t) == s;
    hide Step;
    assert Alone(s, t, 4) == Alone(Step(s, t), t, 3) == Alone(s2, t, 2) == Alone(Step(s2, t), t, 1) == s;
  }

  /** mutex_unlock makes the first waiter the owner, or nobody, in seven steps. */
  lemma UnlockAlone(s: State, t: Tid)
    requires At(s, t) == Critical && !s.flag && s.owner != -1
    ensures Alone(s, t, 7) == s.(
      owner := if s.queue == [] then -1 else s.queue[0],
      queue := if s.queue == [] then [] else s.queue[1..],
      pc := s.pc[t := Idle])
  {
    var next, rest := if s.queue == [] then -1 else s.queue[0], if s.queue == [] then [] else s.queue[1..];
    var s3 := Put(s, t, UnlockRemove, true);
    var s5 := Put(s, t, UnlockDrop, true).(owner := next, queue := rest);
    hide Step;
    UnlockStarts(s, t);
    UnlockHands(s, t);
    UnlockEnds(s.(owner := next, queue := rest), t);
    assert Alone(s, t, 7) == Alone(Step(s, t), t, 6) == Alone(Step(Step(s, t), t), t, 5) == Alone(s3, t, 4)
        == Alone(Step(s3, t), t, 3) == Alone(s5, t, 2) == Alone(Step(s5, t), t, 1) == Step(Step(s5, t), t);
  }

  lemma UnlockStarts(s: State, t: Tid)
    requires At(s, t) == Critical && !s.flag && s.owner != -1
    ensures Step(Step(Step(s, t), t), t) == Put(s, t, UnlockRemove, true)
  {
    assert s.pc[t := UnlockSpin][t := UnlockTest][t := UnlockRemove] == s.pc[t := UnlockRemove];
  }

  lemma UnlockHands(s: State, t: Tid)
    ensures Step(Step(Put(s, t, UnlockRemove, true), t), t) == Put(s, t, UnlockDrop, true).(
      owner := if s.queue == [] then -1 else s.queue[0],
      queue := if s.queue == [] then [] else s.queue[1..])
  {
    var next := if s.queue == [] then -1 else s.queue[0];
    assert s.pc[t := UnlockRemove][t := UnlockSet(next)][t := UnlockDrop] == s.pc[t := UnlockDrop];
  }

  lemma UnlockEnds(s: State, t: Tid)
    requires !s.flag
    ensures Step(Step(Put(s, t, UnlockDrop, true), t), t) == s.(pc := s.pc[t := Idle])
  {
    assert s.pc[t := UnlockDrop][t := UnlockYield][t := Idle] == s.pc[t := Idle];
  }

  /** mutex_unlock of a mutex that nobody owns changes nothing. */
  lemma UnlockFree(s: State, t: Tid)
    requires At(s, t) == UnlockSpin && !s.flag && s.owner == -1
    ensures Alone(s, t, 3) == s.(pc := s.pc[t := Idle])
  {
    var s1 := Put(s, t, UnlockTest, true);
    assert Step(s, t) == s1;
    assert s.pc[t := UnlockTest][t := UnlockAbort][t := Idle] == s.pc[t := Idle];
    assert Step(Step(s1, t), t) == s.(pc := s.pc[t := Idle]);
    hide Step;
    assert Alone(s, t, 3) == Alone(s1, t, 2) == Alone(Step(s1, t), t, 1) == Step(Step(s1, t), t);
  }
}

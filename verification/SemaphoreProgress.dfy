/** What the calls of the semaphore and the condition variable achieve: a broadcast
    wakes every waiter it finds, in order, and each sem_wait and sem_signal that returns
    has counted exactly once. */
module SemaphoreProgress {
  import opened Semaphore
  import Collections
  import UserMutex

  type Tid = UserMutex.Tid

  // ----- cond_broadcast -----

  /** In cond_broadcast, with the condition variable's mutex. */
  predicate InCast(pc: Pc) {
    pc.CastTest? || pc.CastRemove? || pc.CastMake? || pc.CastUnlock?
  }

  /** The waiter a broadcaster has taken off the list and not yet woken. */
  function Hand(pc: Pc): seq<Tid> {
    if pc.CastMake? then [pc.target] else []
  }

  /** The waiters `t` wakes in broadcasts along the trace, in order. */
  function Woken(s: State, trace: seq<Turn>, t: Tid): seq<Tid> {
    if trace == [] then []
    else
      var before := Run(s, trace[..|trace| - 1]);
      Woken(s, trace[..|trace| - 1], t) +
        if trace[|trace| - 1].t == t && At(before, t).CastMake? && At(before, t).target in before.blocked
        then [At(before, t).target] else []
  }

  /** Thread `t` does not leave the broadcast along the trace. */
  ghost predicate StaysIn(s: State, trace: seq<Turn>, t: Tid) {
    InCast(At(Run(s, trace), t)) && (trace != [] ==> StaysIn(s, trace[..|trace| - 1], t))
  }

  /** Of the waiters found, `woken` have been woken, one may be in hand, and the others
      are on the list; the broadcaster leaves only when none is. */
  ghost predicate CastSplit(found: seq<Tid>, s: State, t: Tid, woken: seq<Tid>) {
    && InCast(At(s, t)) && found == woken + Hand(At(s, t)) + s.list
    && (At(s, t).CastUnlock? ==> s.list == [])
  }

  /** Whoever changes the list holds the condition variable's mutex. */
  lemma ListChanged(s: State, u: Tid, call: Call)
    ensures Step(s, u, call).list != s.list ==> RoleC(At(s, u)).Holding?
  {
  }

  lemma OthersKeepList(s: State, t: Tid, u: Tid, call: Call)
    requires LocksOk(s) && u != t && RoleC(At(s, t)).Holding?
    ensures Step(s, u, call).list == s.list && At(Step(s, u, call), t) == At(s, t)
  {
    hide LocksOk;
    ListChanged(s, u, call);
    StepElsewhere(s, u, call);
    hide Step;
    HolderIsOwner(s, t);
    HolderIsOwner(s, u);
  }

  lemma CastOwnStep(found: seq<Tid>, s: State, t: Tid, call: Call, woken: seq<Tid>)
    requires CastSplit(found, s, t, woken) && !At(s, t).CastUnlock?
    ensures CastSplit(found, Step(s, t, call), t,
      woken + if At(s, t).CastMake? && At(s, t).target in s.blocked then [At(s, t).target] else [])
  {
    hide WaitStep;
    hide SignalStep;
    if At(s, t).CastRemove? && s.list != [] {
      assert s.list == [s.list[0]] + s.list[1..];
    }
  }

  /** Over every interleaving: a broadcaster wakes exactly the waiters that were on the
      list when it got the mutex, in their order, and lets go of the mutex only when it
      has woken all of them. */
  lemma {:induction false} BroadcastWakesAll(s: State, trace: seq<Turn>, t: Tid)
    requires LocksOk(s) && ListExact(s) && At(s, t).CastTest? && StaysIn(s, trace, t)
    ensures var s' := Run(s, trace);
      && LocksOk(s') && ListExact(s') && CastSplit(s.list, s', t, Woken(s, trace, t))
      && (At(s', t).CastUnlock? ==> Woken(s, trace, t) == s.list && s'.list == [])
  {
    hide Step;
    hide LocksOk;
    hide ListExact;
    if trace != [] {
      var before, last := trace[..|trace| - 1], trace[|trace| - 1];
      var s1 := Run(s, before);
      BroadcastWakesAll(s, before, t);
      StepList(s1, last.t, last.call);
      if last.t != t {
        OthersKeepList(s1, t, last.t, last.call);
      } else if At(s1, t).CastUnlock? {
        CastLeaves(s1, t, last.call);
      } else {
        CastOwnStep(s.list, s1, t, last.call, Woken(s, before, t));
      }
    }
  }

  lemma CastLeaves(s: State, t: Tid, call: Call)
    requires At(s, t).CastUnlock?
    ensures !InCast(At(Step(s, t, call), t))
  {
    hide WaitStep;
    hide SignalStep;
  }

  /** Nobody is about to end a broadcast while there are waiters on the list. */
  ghost predicate NoneLeft(s: State) {
    forall t :: At(s, t).CastUnlock? ==> s.list == []
  }

  lemma NoneLeftStep(s: State, u: Tid, call: Call)
    requires LocksOk(s) && NoneLeft(s)
    ensures NoneLeft(Step(s, u, call))
  {
    hide LocksOk;
    var s' := Step(s, u, call);
    forall t | At(s', t).CastUnlock?
      ensures s'.list == []
    {
      if t != u {
        StepElsewhere(s, u, call);
        OthersKeepList(s, t, u, call);
      } else {
        CastEnds(s, u, call);
      }
    }
  }

  lemma CastEnds(s: State, t: Tid, call: Call)
    requires At(Step(s, t, call), t).CastUnlock? && (At(s, t).CastUnlock? ==> s.list == [])
    ensures Step(s, t, call).list == []
  {
  }

  /** Over every run a broadcast ends with an empty list. */
  lemma {:induction false} BroadcastEmpties(count: int, trace: seq<Turn>)
    ensures NoneLeft(Run(Initial(count), trace))
  {
    hide Step;
    if trace != [] {
      var before, last := trace[..|trace| - 1], trace[|trace| - 1];
      BroadcastEmpties(count, before);
      RunList(count, before);
      hide NoneLeft;
      NoneLeftStep(Run(Initial(count), before), last.t, last.call);
    }
  }

  /** How many steps a broadcaster has left: three for each waiter, and one. */
  function CastLeft(s: State, t: Tid): nat {
    match At(s, t)
    case CastTest => 3 * |s.list| + 1
    case CastRemove => 3 * |s.list|
    case CastMake(_) => 3 * |s.list| + 2
    case _ => 0
  }

  /** Each of them brings it closer to the end; it stays where it is only while the
      waiter in hand has not descheduled itself yet. */
  lemma CastAdvances(s: State, t: Tid, call: Call)
    requires LocksOk(s) && ListExact(s) && InCast(At(s, t)) && !At(s, t).CastUnlock?
    ensures var s' := Step(s, t, call);
      if At(s, t).CastMake? && At(s, t).target !in s.blocked then s' == s && At(s, At(s, t).target).CondDeschedule?
      else CastLeft(s', t) == CastLeft(s, t) - 1 && (CastLeft(s', t) == 0 <==> At(s', t).CastUnlock?)
  {
    hide LocksOk;
    hide WaitStep;
    hide SignalStep;
    if At(s, t).CastMake? {
      assert Wakes(s, t, At(s, t).target);
    }
  }

  lemma CastUndisturbed(s: State, t: Tid, u: Tid, call: Call)
    requires LocksOk(s) && u != t && InCast(At(s, t))
    ensures CastLeft(Step(s, u, call), t) == CastLeft(s, t)
  {
    hide LocksOk;
    hide Step;
    OthersKeepList(s, t, u, call);
  }

  // ----- each call counts once -----

  /** The call a thread is in. */
  function InCall(pc: Pc): Collections.Option<Call> {
    if pc.Outside? then Collections.None
    else if Signalling(pc) then Collections.Some(Signal)
    else if Casting(pc) then Collections.Some(Broadcast)
    else Collections.Some(Wait)
  }

  /** The call has changed the count. */
  predicate Counted(pc: Pc) {
    || (Signalling(pc) && !pc.SignalLock? && !pc.SignalQueued? && !pc.SignalInc?)
    || (InCall(pc) == Collections.Some(Wait) && !pc.WaitLock? && !pc.WaitQueued? && !pc.WaitDec?)
  }

  /** How often a thread, along a trace, calls, changes the count and returns. */
  datatype Books = Books(called: nat, counted: nat, returned: nat)

  /** What one step adds to the books of `t` for `call`: it counts if it lowers the count
      (sem_wait) or raises it (sem_signal) by one. */
  function Entry(s: State, s': State, t: Tid, call: Call): Books {
    Books(
      if InCall(At(s, t)).None? && InCall(At(s', t)) == Collections.Some(call) then 1 else 0,
      if InCall(At(s, t)) == Collections.Some(call) && s'.n == s.n + (if call.Signal? then 1 else -1) then 1 else 0,
      if InCall(At(s, t)) == Collections.Some(call) && InCall(At(s', t)).None? then 1 else 0)
  }

  function Account(s: State, trace: seq<Turn>, t: Tid, call: Call): Books {
    if trace == [] then Books(0, 0, 0)
    else
      var before, last := trace[..|trace| - 1], trace[|trace| - 1];
      var b, s1 := Account(s, before, t, call), Run(s, before);
      if last.t != t then b
      else
        var e := Entry(s1, Run(s, trace), t, call);
        Books(b.called + e.called, b.counted + e.counted, b.returned + e.returned)
  }

  /** Calls under way. */
  function Open(s: State, t: Tid, call: Call): nat {
    if InCall(At(s, t)) == Collections.Some(call) then 1 else 0
  }

  function OpenCounted(s: State, t: Tid, call: Call): nat {
    if InCall(At(s, t)) == Collections.Some(call) && Counted(At(s, t)) then 1 else 0
  }

  ghost predicate EntryOk(s: State, s': State, t: Tid, call: Call) {
    var e := Entry(s, s', t, call);
    && Open(s, t, call) + e.called == Open(s', t, call) + e.returned
    && (if call.Broadcast? then e.counted == 0 else OpenCounted(s, t, call) + e.counted == OpenCounted(s', t, call) + e.returned)
  }

  lemma EntryWait(s: State, t: Tid, call: Call)
    requires InCall(At(s, t)) == Collections.Some(Wait)
    ensures EntryOk(s, WaitStep(s, t), t, call)
  {
    hide Locked;
    hide Released;
  }

  lemma EntrySignal(s: State, t: Tid, call: Call)
    requires Signalling(At(s, t))
    ensures EntryOk(s, SignalStep(s, t), t, call)
  {
    hide Locked;
    hide Released;
  }

  lemma EntryCast(s: State, t: Tid, call: Call)
    requires Casting(At(s, t))
    ensures EntryOk(s, CastStep(s, t), t, call)
  {
    hide Locked;
    hide Released;
  }

  lemma EntryExact(s: State, t: Tid, now: Call, call: Call)
    ensures EntryOk(s, Step(s, t, now), t, call)
    ensures At(s, t).Outside? ==> InCall(At(Step(s, t, now), t)) == Collections.Some(now)
  {
    hide WaitStep;
    hide SignalStep;
    hide CastStep;
    if Casting(At(s, t)) {
      EntryCast(s, t, call);
      hide EntryOk;
    } else if Signalling(At(s, t)) {
      EntrySignal(s, t, call);
      hide EntryOk;
    } else if !At(s, t).Outside? {
      EntryWait(s, t, call);
      hide EntryOk;
    }
  }

  /** Over every interleaving and for every thread: each call is under way or has returned;
      each sem_signal that has returned raised the count exactly once and each sem_wait
      lowered it exactly once, as have those under way that are past that point; a
      broadcast never changes it. */
  lemma {:induction false} CallsCountOnce(count: int, trace: seq<Turn>, t: Tid, call: Call)
    ensures var s, b := Run(Initial(count), trace), Account(Initial(count), trace, t, call);
      && b.called == b.returned + Open(s, t, call)
      && b.counted == if call.Broadcast? then 0 else b.returned + OpenCounted(s, t, call)
  {
    hide Step;
    hide InCall;
    hide Counted;
    if trace == [] {
      Outset(count, t);
    } else {
      var before, last := trace[..|trace| - 1], trace[|trace| - 1];
      CallsCountOnce(count, before, t, call);
      var s1 := Run(Initial(count), before);
      if last.t == t {
        EntryExact(s1, t, last.call, call);
      } else {
        StepElsewhere(s1, last.t, last.call);
      }
    }
  }

  lemma Outset(count: int, t: Tid)
    ensures InCall(At(Initial(count), t)).None?
  {
  }

  // ----- the counters -----

  /** What has happened along a trace: decrements, increments, returns from sem_wait and
      waiters that broadcasts took off the list. */
  datatype Sums = Sums(waits: nat, signals: nat, entered: nat, taken: nat)

  function Tallied(s: State, trace: seq<Turn>): Sums {
    if trace == [] then Sums(0, 0, 0, 0)
    else
      var before, t := Run(s, trace[..|trace| - 1]), trace[|trace| - 1].t;
      var r := Tallied(s, trace[..|trace| - 1]);
      match At(before, t)
      case WaitDec => r.(waits := r.waits + 1)
      case SignalInc => r.(signals := r.signals + 1)
      case WaitUnlock => r.(entered := r.entered + 1)
      case CastRemove => if before.list != [] then r.(taken := r.taken + 1) else r
      case _ => r
  }

  lemma CounterStep(s: State, t: Tid, call: Call)
    ensures var s', pc := Step(s, t, call), At(s, t);
      && s'.waits == s.waits + (if pc.WaitDec? then 1 else 0)
      && s'.signals == s.signals + (if pc.SignalInc? then 1 else 0)
      && s'.entered == s.entered + (if pc.WaitUnlock? then 1 else 0)
      && s'.taken == s.taken + (if pc.CastRemove? && s.list != [] then 1 else 0)
  {
    hide Locked;
    hide Released;
  }

  /** The counters of the state, which the bounds on admission speak of, are what has
      happened. */
  lemma {:induction false} CountersExact(count: int, trace: seq<Turn>)
    ensures var s := Run(Initial(count), trace);
      Tallied(Initial(count), trace) == Sums(s.waits, s.signals, s.entered, s.taken)
  {
    hide Step;
    if trace != [] {
      var before, last := trace[..|trace| - 1], trace[|trace| - 1];
      CountersExact(count, before);
      CounterStep(Run(Initial(count), before), last.t, last.call);
    }
  }

  // ----- first come, first woken -----

  /** The threads that put themselves on the list along the trace, in order. */
  function Registered(s: State, trace: seq<Turn>): seq<Tid> {
    if trace == [] then []
    else
      var before, t := Run(s, trace[..|trace| - 1]), trace[|trace| - 1].t;
      Registered(s, trace[..|trace| - 1]) + if At(before, t).CondAdd? then [t] else []
  }

  /** The threads that signals and broadcasts take off it, in order. */
  function Dequeued(s: State, trace: seq<Turn>): seq<Tid> {
    if trace == [] then []
    else
      var before, t := Run(s, trace[..|trace| - 1]), trace[|trace| - 1].t;
      Dequeued(s, trace[..|trace| - 1]) + if Waking(At(Run(s, trace), t)) && !Waking(At(before, t)) then [At(Run(s, trace), t).target] else []
  }

  lemma ListStep(s: State, t: Tid, call: Call)
    ensures var s' := Step(s, t, call);
      var taken := if Waking(At(s', t)) && !Waking(At(s, t)) then [At(s', t).target] else [];
      s.list + (if At(s, t).CondAdd? then [t] else []) == taken + s'.list
  {
    hide Locked;
    hide Released;
    if Removing(At(s, t)) && s.list != [] {
      assert s.list == [s.list[0]] + s.list[1..];
    }
  }

  /** Over every interleaving waiters are taken off the list in the order in which they
      came. */
  lemma {:induction false} WaitersInOrder(s: State, trace: seq<Turn>)
    ensures s.list + Registered(s, trace) == Dequeued(s, trace) + Run(s, trace).list
  {
    hide Step;
    if trace != [] {
      var before, last := trace[..|trace| - 1], trace[|trace| - 1];
      WaitersInOrder(s, before);
      var s1, s2, t := Run(s, before), Run(s, trace), last.t;
      ListStep(s1, t, last.call);
      Collections.QueueMoves(s.list, Registered(s, before), Dequeued(s, before), s1.list,
        if At(s1, t).CondAdd? then [t] else [], if Waking(At(s2, t)) && !Waking(At(s1, t)) then [At(s2, t).target] else [], s2.list);
    }
  }
}

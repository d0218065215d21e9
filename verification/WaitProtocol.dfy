/** wait and vanish as the threads of all processes run them against each other
    (kern/syscall/lifecycle.c): the families of `Lifecycle` together with the waiting
    list of each process.  The call gates leave interrupts on, so wait is cut into steps
    between which any other thread may run: it looks for an exited child, and then goes
    to sleep, or checks once more that there are children and collects the one it saw.
    vanish runs with switching off and is one step. */
module WaitProtocol {
  import opened Collections
  import L = Lifecycle
  import LR = LifecycleRuns

  /** Where a thread is: not in wait; in wait, about to go to sleep; put on the waiting
      list since; out of the loop, with the exited child it saw, if any; or past the
      second check with that child. */
  datatype Pc<P> = Outside | Missed | Asleep | Seen(child: Option<P>) | Found(child: Option<P>)

  datatype State<P(==), T(==)> = State(fam: L.State<P, T>, waiting: map<P, seq<T>>, pc: map<T, Pc<P>>)

  datatype Op<P, T> =
    | Look
    | Doze
    | Check
    | Collect
    | Vanish
    | Other(call: L.Op<P, T>)

  datatype Outcome<T> = Inside | Returned(result: L.Outcome<T>) | UseAfterFree | NullDereference

  function At<P, T>(s: State<P, T>, t: T): Pc<P> {
    if t in s.pc then s.pc[t] else Outside
  }

  function Waiters<P, T>(s: State<P, T>, p: P): seq<T> {
    if p in s.waiting then s.waiting[p] else []
  }

  function Goto<P, T>(s: State<P, T>, t: T, pc: Pc<P>): State<P, T> {
    s.(pc := s.pc[t := pc])
  }

  /** The thread exists, has not vanished and is not on its waiting list. */
  predicate CanRun<P, T>(s: State<P, T>, t: T) {
    && t in s.fam.owner && t !in s.fam.gone && s.fam.owner[t] in s.fam.procs && s.fam.init in s.fam.procs
    && t !in Waiters(s, s.fam.owner[t])
  }

  /** The calls that create threads and processes or set the status. */
  predicate Calls<P(==), T(==)>(p: P, call: L.Op<P, T>) {
    match call
    case Fork(parent, _, _, _) => parent == p
    case ThreadFork(caller, _) => caller == p
    case SetStatus(setter, _) => setter == p
    case _ => false
  }

  ghost predicate Legal<P, T>(s: State<P, T>, t: T, op: Op<P, T>) {
    CanRun(s, t) &&
    match op
    case Look => At(s, t).Outside? || At(s, t).Asleep?
    case Doze => At(s, t).Missed?
    case Check => At(s, t).Seen?
    case Collect => At(s, t).Found?
    case Vanish => At(s, t).Outside?
    case Other(call) => At(s, t).Outside? && Calls(s.fam.owner[t], call) && L.Legal(s.fam, call)
  }

  /** The checks at the start of wait, and the head of its loop. */
  function LookStep<P, T>(s: State<P, T>, t: T): (State<P, T>, Outcome<T>)
    requires CanRun(s, t)
  {
    var p := s.fam.owner[t];
    var x := s.fam.procs[p];
    if At(s, t).Outside? && x.children == 0 then (s, Returned(L.NoChildren))
    else if At(s, t).Outside? && x.children <= |Waiters(s, p)| then (s, Returned(L.WaitFull))
    else
      var child := L.FirstExited(s.fam, x.kids);
      (Goto(s, t, if child.None? && x.children > 0 then Missed else Seen(child)), Inside)
  }

  /** The second check of the number of children. */
  function CheckStep<P, T>(s: State<P, T>, t: T): (State<P, T>, Outcome<T>)
    requires CanRun(s, t) && At(s, t).Seen?
  {
    if s.fam.procs[s.fam.owner[t]].children == 0 then (Goto(s, t, Outside), Returned(L.ChildrenGone))
    else (Goto(s, t, Found(At(s, t).child)), Inside)
  }

  /** set_waiting */
  function DozeStep<P, T>(s: State<P, T>, t: T): State<P, T>
    requires CanRun(s, t)
  {
    var p := s.fam.owner[t];
    Goto(s, t, Asleep).(waiting := s.waiting[p := Waiters(s, p) + [t]])
  }

  /** The rest of wait, from the exit status to destroy_process. */
  function CollectStep<P, T>(s: State<P, T>, t: T): (State<P, T>, Outcome<T>)
    requires At(s, t).Found?
  {
    var child, s1 := At(s, t).child, Goto(s, t, Outside);
    if child.None? then (s1, NullDereference)
    else if child.value !in s.fam.procs then (s1, UseAfterFree)
    else
      var c := child.value;
      var x := s.fam.procs[c];
      if x.original.None? then (s1, Returned(L.NoOriginal))
      else (s1.(fam := L.Buried(s.fam, c)), Returned(L.Collected(x.original.value, x.status)))
  }

  /** Whose waiting list vanish looks at: the parent's, after the last thread. */
  function Told<P, T>(s: State<P, T>, t: T): Option<P>
    requires CanRun(s, t)
  {
    var p, f := s.fam.owner[t], L.VanishStep(s.fam, t);
    if p in f.procs && f.procs[p].active == 0 then f.procs[p].parent else None
  }

  function VanishStep<P, T>(s: State<P, T>, t: T): State<P, T>
    requires CanRun(s, t)
  {
    var s1, up := s.(fam := L.VanishStep(s.fam, t)), Told(s, t);
    if up.Some? && Waiters(s, up.value) != [] then s1.(waiting := s.waiting[up.value := Waiters(s, up.value)[1..]]) else s1
  }

  function Step<P, T>(s: State<P, T>, t: T, op: Op<P, T>): (State<P, T>, Outcome<T>)
    requires Legal(s, t, op)
  {
    match op
    case Look => LookStep(s, t)
    case Doze => (DozeStep(s, t), Inside)
    case Check => CheckStep(s, t)
    case Collect => CollectStep(s, t)
    case Vanish => (VanishStep(s, t), Returned(L.Done))
    case Other(call) =>
      var (fam, r) := L.Step(s.fam, call);
      (s.(fam := fam), Returned(r))
  }

  // ----- the invariant -----

  /** The exited children of `p` nobody has collected. */
  ghost function Zombies<P, T>(f: L.State<P, T>, p: P): set<P> {
    set c | c in f.procs && LR.Collectable(f, p, c)
  }

  /** Thread `t` of `p` is in wait and on its way to collect a child: it has been
      woken, or has seen one. */
  predicate Up<P, T>(s: State<P, T>, t: T, p: P) {
    && t in s.fam.owner && s.fam.owner[t] == p
    && (At(s, t).Found? || (At(s, t).Seen? && At(s, t).child.Some?) || (At(s, t).Asleep? && t !in Waiters(s, p)))
  }

  ghost function Awake<P, T>(s: State<P, T>, p: P): set<T> {
    set t | t in s.pc && Up(s, t, p)
  }

  ghost predicate ThreadOk<P, T>(s: State<P, T>, t: T) {
    !At(s, t).Outside? ==> t in s.fam.owner && t !in s.fam.gone
  }

  ghost predicate ListOk<P, T>(s: State<P, T>, p: P) {
    NoDuplicates(Waiters(s, p)) && forall t :: t in Waiters(s, p) ==> t in s.fam.owner && s.fam.owner[t] == p && At(s, t).Asleep?
  }

  ghost predicate Inv<P, T>(s: State<P, T>) {
    L.Inv(s.fam) && (forall t :: t in s.pc ==> ThreadOk(s, t)) && (forall p :: p in s.waiting ==> ListOk(s, p))
  }

  /** Thread `t` may collect what it is past the second check with. */
  ghost predicate Claim<P, T>(s: State<P, T>, t: T, child: Option<P>) {
    t in s.fam.owner && child.Some? && LR.Collectable(s.fam, s.fam.owner[t], child.value)
  }

  /** Nobody is past the second check with a child that is not there, and no two
      threads are with the same. */
  ghost predicate Claims<P, T>(s: State<P, T>) {
    && (forall t :: t in s.pc && At(s, t).Found? ==> Claim(s, t, At(s, t).child))
    && (forall t, u :: t in s.pc && u in s.pc && At(s, t).Found? && At(s, u) == At(s, t) ==> t == u)
  }

  /** While a thread of `p` sleeps in wait there is a thread of `p` on its way for
      every exited child. */
  ghost predicate PromptAt<P, T>(s: State<P, T>, p: P) {
    Waiters(s, p) != [] ==> |Zombies(s.fam, p)| <= |Awake(s, p)|
  }

  ghost predicate Prompt<P, T>(s: State<P, T>) {
    forall p :: p in s.fam.procs ==> PromptAt(s, p)
  }

  ghost predicate Good<P, T>(s: State<P, T>) {
    Inv(s) && Claims(s) && Prompt(s)
  }

  /** The threads of init that still sleep after this vanish. */
  ghost function StillWaiting<P, T>(s: State<P, T>, t: T): seq<T>
    requires CanRun(s, t)
  {
    var w := Waiters(s, s.fam.init);
    if Told(s, t) == Some(s.fam.init) && w != [] then w[1..] else w
  }

  /** The second check sends the thread away, or the child it saw is there and nobody
      else is past the check with it. */
  ghost predicate PassesAlone<P, T>(s: State<P, T>, t: T)
    requires CanRun(s, t) && At(s, t).Seen?
  {
    s.fam.procs[s.fam.owner[t]].children == 0 ||
    (Claim(s, t, At(s, t).child) && forall u :: u in s.pc && u != t ==> At(s, u) != Found(At(s, t).child))
  }

  /** If threads of init sleep on, others are on their way for its exited children and
      for those it adopts from the process of `t`. */
  ghost predicate LeavesNone<P, T>(s: State<P, T>, t: T)
    requires CanRun(s, t)
  {
    StillWaiting(s, t) != [] ==>
      |Zombies(s.fam, s.fam.init)| + |Zombies(s.fam, s.fam.owner[t])| <= |Awake(s, s.fam.init)|
  }

  /** When a step is in time: no thread passes the second check with a child that is
      gone or that another is about to collect, no child has exited between the look
      and the sleep without a thread to collect it, and no exited child is left to an
      init that sleeps on. */
  ghost predicate Timely<P, T>(s: State<P, T>, t: T, op: Op<P, T>)
    requires Legal(s, t, op)
  {
    var p := s.fam.owner[t];
    match op
    case Look => true
    case Check => PassesAlone(s, t)
    case Doze => |Zombies(s.fam, p)| <= |Awake(s, p)|
    case Collect => true
    case Vanish => LR.Safe(s.fam, L.Vanish(t)) && (s.fam.procs[p].active == 1 ==> LeavesNone(s, t))
    case Other(call) => LR.Safe(s.fam, call)
  }

  // ----- one thread moves -----

  /** A step that changes where `t` is, and at most puts it on its waiting list. */
  ghost predicate Moves<P, T>(s: State<P, T>, s': State<P, T>, t: T) {
    && t in s.fam.owner && s'.fam == s.fam && s'.pc == s.pc[t := At(s', t)] && t in s'.pc
    && (forall q :: q in s'.waiting && q != s.fam.owner[t] ==> Waiters(s', q) == Waiters(s, q))
    && (forall q :: q in s.waiting ==> q in s'.waiting)
    && (forall u :: u in s.pc && u != t ==> (u in Waiters(s', s.fam.owner[t]) <==> u in Waiters(s, s.fam.owner[t])))
  }

  lemma AwakeMoves<P, T>(s: State<P, T>, s': State<P, T>, t: T, q: P)
    requires Moves(s, s', t)
    ensures q != s.fam.owner[t] ==> Awake(s', q) == Awake(s, q) && Waiters(s', q) == Waiters(s, q)
    ensures |Awake(s', q)| == |Awake(s, q)| - (if Up(s, t, q) then 1 else 0) + (if Up(s', t, q) then 1 else 0)
  {
    forall u | u != t
      ensures u in Awake(s', q) <==> u in Awake(s, q)
    {
      assert At(s', u) == At(s, u);
    }
    SizeAfterToggle(Awake(s, q), Awake(s', q), t);
    if q != s.fam.owner[t] {
      assert !Up(s, t, q) && !Up(s', t, q);
      assert Awake(s', q) == Awake(s, q);
    }
  }

  /** No child of `p` has exited. */
  lemma NoZombies<P, T>(f: L.State<P, T>, p: P)
    requires L.Inv(f) && p in f.procs
    ensures L.FirstExited(f, f.procs[p].kids).None? <==> Zombies(f, p) == {}
    ensures f.procs[p].kids == [] ==> Zombies(f, p) == {}
    ensures f.procs[p].life.Alive? ==> f.procs[p].children == |f.procs[p].kids|
  {
    assert L.KinOk(f, p);
    var child := L.FirstExited(f, f.procs[p].kids);
    if child.Some? {
      assert L.KinOk(f, child.value);
      assert child.value in Zombies(f, p);
    } else {
      forall c | c in f.procs
        ensures !LR.Collectable(f, p, c)
      {
        LR.OneLiveParent(f, c, p);
      }
    }
  }

  /** A process with a thread that can run has not exited. */
  lemma RunnerAlive<P, T>(s: State<P, T>, t: T)
    requires L.Inv(s.fam) && CanRun(s, t)
    ensures s.fam.procs[s.fam.owner[t]].life.Alive?
  {
    LR.ExitedExact(s.fam, s.fam.owner[t]);
  }

  /** A look leaves the thread outside, before its sleep or with what it saw. */
  lemma LookEffect<P, T>(s: State<P, T>, t: T)
    requires Inv(s) && Legal(s, t, Look)
    ensures var s', p := LookStep(s, t).0, s.fam.owner[t];
      || s' == s
      || (&& s' == Goto(s, t, At(s', t)) && (At(s', t).Missed? || At(s', t).Seen?) && p in s.fam.procs
          && (At(s', t).Missed? || At(s', t).child.None? ==> Zombies(s.fam, p) == {}))
  {
    var p := s.fam.owner[t];
    NoZombies(s.fam, p);
    RunnerAlive(s, t);
    assert L.KinOk(s.fam, p);
    hide Inv;
  }

  lemma GotoInv<P, T>(s: State<P, T>, t: T, pc: Pc<P>)
    requires Inv(s) && CanRun(s, t)
    ensures Inv(Goto(s, t, pc)) && Moves(s, Goto(s, t, pc), t)
  {
    var s' := Goto(s, t, pc);
    hide L.Inv;
    hide NoDuplicates;
    forall u | u in s'.pc
      ensures ThreadOk(s', u)
    {
      assert u in s.pc ==> ThreadOk(s, u);
    }
    forall p | p in s'.waiting
      ensures ListOk(s', p)
    {
      assert ListOk(s, p);
    }
  }

  lemma LookPrompt<P, T>(s: State<P, T>, t: T)
    requires Inv(s) && Legal(s, t, Look) && Prompt(s)
    ensures Inv(LookStep(s, t).0) && Prompt(LookStep(s, t).0)
  {
    var s', p := LookStep(s, t).0, s.fam.owner[t];
    LookEffect(s, t);
    hide LookStep;
    hide Zombies;
    hide Awake;
    if s' != s {
      GotoInv(s, t, At(s', t));
      hide Inv;
      forall q | q in s'.fam.procs
        ensures PromptAt(s', q)
      {
        assert PromptAt(s, q);
        AwakeMoves(s, s', t, q);
      }
    }
  }

  lemma GotoClaims<P, T>(s: State<P, T>, t: T, pc: Pc<P>)
    requires Claims(s)
    ensures Claims(Goto(s, t, pc)) <==>
      (pc.Found? ==> Claim(s, t, pc.child) && forall u :: u in s.pc && u != t ==> At(s, u) != pc)
  {
    var s' := Goto(s, t, pc);
    assert forall u :: u in s.pc && u != t ==> At(s', u) == At(s, u);
    assert At(s', t) == pc;
    if pc.Found? && exists u :: u in s.pc && u != t && At(s, u) == pc {
      var u :| u in s.pc && u != t && At(s, u) == pc;
      assert At(s', u) == At(s', t) == pc;
    }
  }

  /** A look is always in time. */
  lemma LookGood<P, T>(s: State<P, T>, t: T)
    requires Good(s) && Legal(s, t, Look)
    ensures Good(LookStep(s, t).0)
  {
    LookPrompt(s, t);
    LookEffect(s, t);
    var s' := LookStep(s, t).0;
    hide LookStep;
    hide Inv;
    hide Prompt;
    hide Claims;
    if s' != s {
      GotoClaims(s, t, At(s', t));
    }
  }

  lemma CheckPrompt<P, T>(s: State<P, T>, t: T)
    requires Inv(s) && Legal(s, t, Check) && Prompt(s)
    ensures Inv(CheckStep(s, t).0) && Prompt(CheckStep(s, t).0)
  {
    hide L.Inv;
    hide Zombies;
    hide Awake;
    var s', p := CheckStep(s, t).0, s.fam.owner[t];
    NoZombies(s.fam, p);
    RunnerAlive(s, t);
    GotoInv(s, t, At(s', t));
    hide Inv;
    forall q | q in s'.fam.procs
      ensures PromptAt(s', q)
    {
      assert PromptAt(s, q);
      AwakeMoves(s, s', t, q);
    }
  }

  lemma CheckExact<P, T>(s: State<P, T>, t: T)
    requires Good(s) && Legal(s, t, Check)
    ensures Good(CheckStep(s, t).0) <==> PassesAlone(s, t)
  {
    CheckPrompt(s, t);
    hide Inv;
    hide Prompt;
    hide Claims;
    GotoClaims(s, t, At(CheckStep(s, t).0, t));
  }

  lemma DozeInv<P, T>(s: State<P, T>, t: T)
    requires Inv(s) && Legal(s, t, Doze)
    ensures Inv(DozeStep(s, t)) && Moves(s, DozeStep(s, t), t)
  {
    hide L.Inv;
    hide NoDuplicates;
    var s', p, s1 := DozeStep(s, t), s.fam.owner[t], Goto(s, t, Asleep);
    GotoInv(s, t, Asleep);
    forall u | u in s'.pc
      ensures ThreadOk(s', u)
    {
      assert ThreadOk(s1, u) && At(s', u) == At(s1, u);
    }
    forall q | q in s'.waiting
      ensures ListOk(s', q)
    {
      assert q in s1.waiting ==> ListOk(s1, q);
      if q == p {
        Appended(Waiters(s, p), t);
      }
    }
  }

  lemma Appended<T>(q: seq<T>, t: T)
    requires NoDuplicates(q) && t !in q
    ensures NoDuplicates(q + [t])
  {
    ConcatDistinct(q, [t]);
  }

  lemma DozeExact<P, T>(s: State<P, T>, t: T)
    requires Good(s) && Legal(s, t, Doze)
    ensures Good(DozeStep(s, t)) <==> |Zombies(s.fam, s.fam.owner[t])| <= |Awake(s, s.fam.owner[t])|
  {
    hide L.Inv;
    hide Awake;
    hide Zombies;
    hide Claims;
    var s', p := DozeStep(s, t), s.fam.owner[t];
    DozeInv(s, t);
    hide Inv;
    GotoClaims(s, t, Asleep);
    ClaimsOf(Goto(s, t, Asleep), s');
    forall q | q in s.fam.procs
      ensures q != p ==> PromptAt(s', q)
      ensures q == p ==> (PromptAt(s', q) <==> |Zombies(s.fam, p)| <= |Awake(s, p)|)
    {
      assert PromptAt(s, q);
      AwakeMoves(s, s', t, q);
    }
  }

  // ----- the families change -----

  /** Whoever is in wait stays a thread of its process. */
  ghost predicate Stays<P, T>(s: State<P, T>, f: L.State<P, T>) {
    forall u :: u in s.pc && !At(s, u).Outside? ==> u in s.fam.owner && u in f.owner && f.owner[u] == s.fam.owner[u] && u !in f.gone
  }

  lemma FamilyInv<P, T>(s: State<P, T>, f: L.State<P, T>)
    requires Inv(s) && L.Inv(f) && Stays(s, f)
    ensures Inv(s.(fam := f))
  {
    var s' := s.(fam := f);
    hide L.Inv;
    forall u | u in s'.pc
      ensures ThreadOk(s', u)
    {
      assert ThreadOk(s, u);
    }
    forall q | q in s'.waiting
      ensures ListOk(s', q)
    {
      assert ListOk(s, q);
    }
  }

  lemma FamilyAwake<P, T>(s: State<P, T>, f: L.State<P, T>, q: P)
    requires Stays(s, f)
    ensures Awake(s.(fam := f), q) == Awake(s, q)
  {
    var s' := s.(fam := f);
    forall u | u in s.pc
      ensures Up(s', u, q) <==> Up(s, u, q)
    {
      assert At(s', u) == At(s, u);
    }
  }

  /** Exited children stay where they are. */
  lemma FamilyClaims<P, T>(s: State<P, T>, f: L.State<P, T>)
    requires Claims(s) && Stays(s, f)
    requires forall u :: u in s.pc && At(s, u).Found? && Claim(s, u, At(s, u).child) ==>
      LR.Collectable(f, s.fam.owner[u], At(s, u).child.value)
    ensures Claims(s.(fam := f))
  {
    var s' := s.(fam := f);
    assert forall u :: u in s.pc ==> At(s', u) == At(s, u);
  }

  lemma NobodyWaits<P, T>(s: State<P, T>, q: P)
    requires Inv(s) && q !in s.fam.procs
    ensures Waiters(s, q) == []
  {
    Head(Waiters(s, q));
    assert q in s.waiting ==> ListOk(s, q);
  }

  lemma Head<T>(q: seq<T>)
    ensures q == [] || exists t :: t in q
  {
    if q != [] {
      assert q[0] in q;
    }
  }

  /** A change that leaves the threads in wait and the exited children alone. */
  lemma FamilyGood<P, T>(s: State<P, T>, f: L.State<P, T>)
    requires Good(s) && L.Inv(f) && Stays(s, f)
    requires forall q, c :: LR.Collectable(f, q, c) <==> LR.Collectable(s.fam, q, c)
    ensures Good(s.(fam := f))
  {
    hide L.Inv;
    hide Stays;
    hide LR.Collectable;
    FamilyInv(s, f);
    FamilyClaims(s, f);
    forall q | q in f.procs
      ensures PromptAt(s.(fam := f), q)
    {
      FamilyAwake(s, f, q);
      SameZombies(s.fam, f, q);
      if q in s.fam.procs {
        assert PromptAt(s, q);
      } else {
        NobodyWaits(s, q);
      }
    }
  }

  lemma SameZombies<P, T>(f: L.State<P, T>, f': L.State<P, T>, q: P)
    requires forall c :: LR.Collectable(f', q, c) <==> LR.Collectable(f, q, c)
    ensures Zombies(f', q) == Zombies(f, q)
  {
  }

  // ----- collection -----

  /** A thread that has not vanished survives the burial of an exited process. */
  lemma BuriedStays<P, T>(s: State<P, T>, c: P)
    requires Inv(s) && c in s.fam.procs && s.fam.procs[c].life.Exited?
    ensures Stays(s, L.Buried(s.fam, c))
  {
    L.BuriedEffect(s.fam, c);
    LR.ExitedExact(s.fam, c);
    assert L.ThreadsOk(s.fam, c);
    hide L.Buried;
    forall u | u in s.pc && !At(s, u).Outside?
      ensures u in s.fam.owner && u !in s.fam.gone && u !in s.fam.procs[c].family
    {
      assert ThreadOk(s, u);
    }
  }

  lemma BuriedZombies<P, T>(f: L.State<P, T>, c: P, q: P)
    requires L.Inv(f) && c in f.procs && f.procs[c].life.Exited?
    ensures Zombies(L.Buried(f, c), q) == Zombies(f, q) - {c}
  {
    L.BuriedEffect(f, c);
    hide L.Buried;
    hide L.Inv;
    var f' := L.Buried(f, c);
    forall x | x in f'.procs
      ensures f'.procs[x].parent == f.procs[x].parent && f'.procs[x].life == f.procs[x].life
    {
    }
  }

  /** A claimed child is buried, and with it one claim goes. */
  lemma CollectGood<P, T>(s: State<P, T>, t: T)
    requires Good(s) && Legal(s, t, Collect)
    ensures Good(CollectStep(s, t).0) && CollectStep(s, t).1.Returned? && CollectStep(s, t).1.result.Collected?
  {
    assert Claim(s, t, At(s, t).child);
    var c, p, s1 := At(s, t).child.value, s.fam.owner[t], Goto(s, t, Outside);
    assert LR.Collectable(s.fam, p, c) && L.ThreadsOk(s.fam, c);
    var f := L.Buried(s.fam, c);
    assert CollectStep(s, t).0 == s1.(fam := f);
    GotoInv(s, t, Outside);
    GotoClaims(s, t, Outside);
    L.BuriedInv(s.fam, c);
    BuriedStays(s1, c);
    FamilyInv(s1, f);
    hide L.Buried;
    hide Awake;
    CollectClaims(s, t, c);
    CollectPrompt(s, t, c);
  }

  /** The child that `t` has seen is gone, and nobody else had seen it. */
  lemma ClaimDropped<P, T>(s: State<P, T>, t: T, c: P, f: L.State<P, T>)
    requires Claims(s) && t in s.pc && At(s, t) == Found(Some(c)) && Stays(Goto(s, t, Outside), f)
    requires forall q :: q in s.fam.procs ==> Zombies(f, q) == Zombies(s.fam, q) - {c}
    requires forall u :: u in s.fam.owner ==> s.fam.owner[u] in s.fam.procs
    ensures Claims(Goto(s, t, Outside).(fam := f))
  {
    var s1 := Goto(s, t, Outside);
    forall u | u in s1.pc && At(s1, u).Found?
      ensures Claim(s, u, At(s1, u).child) && LR.Collectable(f, s.fam.owner[u], At(s1, u).child.value)
    {
      assert u != t && At(s, u) == At(s1, u) && Claim(s, u, At(s, u).child);
      var d := At(s, u).child.value;
      assert d != c && d in Zombies(s.fam, s.fam.owner[u]);
      assert d in Zombies(f, s.fam.owner[u]);
    }
    GotoClaims(s, t, Outside);
    FamilyClaims(s1, f);
  }

  lemma CollectClaims<P, T>(s: State<P, T>, t: T, c: P)
    requires Good(s) && Legal(s, t, Collect) && At(s, t) == Found(Some(c)) && c in s.fam.procs
    ensures Claims(Goto(s, t, Outside).(fam := L.Buried(s.fam, c)))
  {
    hide L.Buried;
    hide Zombies;
    hide Stays;
    var s1 := Goto(s, t, Outside);
    var f := L.Buried(s.fam, c);
    assert Claim(s, t, Some(c));
    GotoInv(s, t, Outside);
    BuriedStays(s1, c);
    forall q | q in s.fam.procs
      ensures Zombies(f, q) == Zombies(s.fam, q) - {c}
    {
      BuriedZombies(s.fam, c, q);
    }
    ClaimDropped(s, t, c, f);
  }

  lemma CollectPrompt<P, T>(s: State<P, T>, t: T, c: P)
    requires Good(s) && Legal(s, t, Collect) && At(s, t) == Found(Some(c)) && c in s.fam.procs
    ensures Prompt(Goto(s, t, Outside).(fam := L.Buried(s.fam, c)))
  {
    hide L.Buried;
    hide L.Inv;
    hide Awake;
    hide Zombies;
    hide Stays;
    var p, s1 := s.fam.owner[t], Goto(s, t, Outside);
    var f := L.Buried(s.fam, c);
    assert Claim(s, t, Some(c));
    L.InvForest(s.fam);
    L.BuriedEffect(s.fam, c);
    GotoInv(s, t, Outside);
    BuriedStays(s1, c);
    hide Inv;
    forall q | q in f.procs
      ensures PromptAt(s1.(fam := f), q)
    {
      assert PromptAt(s, q);
      BuriedZombies(s.fam, c, q);
      AwakeMoves(s, s1, t, q);
      FamilyAwake(s1, f, q);
      ZombieOf(s.fam, p, c, q);
    }
  }

  /** An exited child is a zombie of its parent and of nobody else. */
  lemma ZombieOf<P, T>(f: L.State<P, T>, p: P, c: P, q: P)
    requires LR.Collectable(f, p, c)
    ensures c in Zombies(f, q) <==> q == p
  {
  }

  // ----- birth -----

  /** A new thread or process disturbs nobody's zombies. */
  lemma OtherKeeps<P, T>(f: L.State<P, T>, p: P, call: L.Op<P, T>)
    requires L.Inv(f) && L.Legal(f, call) && Calls(p, call)
    ensures var f' := L.Step(f, call).0;
      && f'.gone == f.gone
      && (forall u :: u in f.owner ==> u in f'.owner && f'.owner[u] == f.owner[u])
      && (forall q, c :: LR.Collectable(f', q, c) <==> LR.Collectable(f, q, c))
  {
    hide L.KinOk;
    hide L.ThreadsOk;
  }

  lemma OtherStays<P, T>(s: State<P, T>, t: T, call: L.Op<P, T>)
    requires Inv(s) && Legal(s, t, Other(call))
    ensures Stays(s, L.Step(s.fam, call).0)
  {
    hide L.Step;
    OtherKeeps(s.fam, s.fam.owner[t], call);
    hide L.Inv;
    assert forall u :: u in s.pc ==> ThreadOk(s, u);
  }

  lemma OtherExact<P, T>(s: State<P, T>, t: T, call: L.Op<P, T>)
    requires Good(s) && Legal(s, t, Other(call))
    ensures Good(s.(fam := L.Step(s.fam, call).0)) <==> LR.Safe(s.fam, call)
  {
    hide L.Step;
    hide LR.Safe;
    hide Calls;
    hide L.Legal;
    hide L.Inv;
    hide Claims;
    hide Prompt;
    LR.StepExact(s.fam, call);
    OtherKeeps(s.fam, s.fam.owner[t], call);
    OtherStays(s, t, call);
    if L.Inv(L.Step(s.fam, call).0) {
      FamilyGood(s, L.Step(s.fam, call).0);
    }
  }

  // ----- death -----

  lemma VanishStays<P, T>(s: State<P, T>, t: T)
    requires Inv(s) && Legal(s, t, Vanish)
    ensures var f := L.VanishStep(s.fam, t);
      Stays(s, f) && f.procs.Keys == s.fam.procs.Keys && f.init == s.fam.init
  {
    hide L.Inv;
    forall u | u in s.pc && !At(s, u).Outside?
      ensures u in s.fam.owner && u !in s.fam.gone && u != t
    {
      assert ThreadOk(s, u);
    }
  }

  /** A thread that is not the last leaves all families as they are. */
  lemma WithdrawnZombies<P, T>(f: L.State<P, T>, t: T, q: P)
    requires t in f.owner && f.owner[t] in f.procs
    ensures Zombies(L.Withdrawn(f, t), q) == Zombies(f, q)
  {
    var f' := L.Withdrawn(f, t);
    assert forall c :: LR.Collectable(f', q, c) <==> LR.Collectable(f, q, c);
  }

  /** When process `p` exits it becomes a zombie of its parent, and its own zombies
      become init's. */
  lemma ExitZombies<P, T>(f: L.State<P, T>, p: P, c: P, q: P)
    requires L.Forest(f) && p in f.procs && p != f.init && f.procs[p].life.Alive?
    ensures LR.Collectable(L.Exit(f, p), q, c) <==>
      || (c == p && f.procs[p].parent == Some(q))
      || (q != p && LR.Collectable(f, q, c))
      || (q == f.init && LR.Collectable(f, p, c))
  {
    L.ExitEffect(f, p);
    L.InitIsRoot(f);
    hide L.Exit;
    assert L.KinOk(f, p) && L.KinOk(f, f.init);
    if c in f.procs {
      assert L.KinOk(f, c);
      assert c in f.procs[p].kids <==> f.procs[c].parent == Some(p);
    }
    hide L.Forest;
  }

  lemma ExitCount<P, T>(f: L.State<P, T>, p: P, q: P)
    requires L.Forest(f) && p in f.procs && p != f.init && f.procs[p].life.Alive? && q != p
    ensures |Zombies(L.Exit(f, p), q)| ==
      |Zombies(f, q)| + (if q == f.init then |Zombies(f, p)| else 0) + (if f.procs[p].parent == Some(q) then 1 else 0)
  {
    L.ExitEffect(f, p);
    hide L.Exit;
    var f' := L.Exit(f, p);
    forall c
      ensures LR.Collectable(f', q, c) <==>
        (c == p && f.procs[p].parent == Some(q)) || LR.Collectable(f, q, c) || (q == f.init && LR.Collectable(f, p, c))
    {
      ExitZombies(f, p, c, q);
    }
    hide L.Forest;
    Heirs(Zombies(f', q), Zombies(f, q), Zombies(f, p), p, q == f.init, f.procs[p].parent == Some(q));
  }

  lemma Heirs<P>(after: set<P>, own: set<P>, left: set<P>, p: P, heir: bool, child: bool)
    requires own !! left && p !in own && p !in left
    requires forall c :: c in after <==> (c == p && child) || c in own || (heir && c in left)
    ensures |after| == |own| + (if heir then |left| else 0) + (if child then 1 else 0)
  {
    var both := own + if heir then left else {};
    assert after == both + if child then {p} else {};
  }

  /** The first waiter of `up` leaves the waiting list and is on its way. */
  lemma WokenInv<P, T>(s: State<P, T>, up: P)
    requires Inv(s) && Waiters(s, up) != []
    ensures var s' := s.(waiting := s.waiting[up := Waiters(s, up)[1..]]);
      && Inv(s')
      && |Awake(s', up)| == |Awake(s, up)| + 1
      && forall q :: q != up ==> Awake(s', q) == Awake(s, q)
  {
    hide L.Inv;
    var w := Waiters(s, up);
    var s' := s.(waiting := s.waiting[up := w[1..]]);
    assert ListOk(s, up);
    assert w[0] in w && w[0] !in w[1..] && w[0] in s.pc;
    assert forall u :: At(s', u) == At(s, u);
    assert forall u :: u in w <==> u == w[0] || u in w[1..];
    assert Awake(s', up) == Awake(s, up) + {w[0]};
    forall u | u in s'.pc
      ensures ThreadOk(s', u)
    {
      assert ThreadOk(s, u);
    }
    forall q | q in s'.waiting
      ensures ListOk(s', q)
    {
      assert ListOk(s, q);
    }
  }

  /** All threads of an exiting process have vanished, so none of them is in wait. */
  lemma ExitingIdle<P, T>(s: State<P, T>, t: T)
    requires Inv(s) && Legal(s, t, Vanish) && s.fam.procs[s.fam.owner[t]].active == 1
    ensures Waiters(s, s.fam.owner[t]) == []
    ensures forall u :: u in s.pc && !At(s, u).Outside? ==> u in s.fam.owner && s.fam.owner[u] != s.fam.owner[t]
  {
    var p := s.fam.owner[t];
    assert L.ThreadsOk(s.fam, p) && t in s.fam.procs[p].family;
    L.LiveAfter(s.fam.procs[p].family, s.fam.gone, t);
    L.LiveNone(s.fam.procs[p].family, s.fam.gone + {t});
    hide L.KinOk;
    hide L.Live;
    assert forall u :: u in s.pc ==> ThreadOk(s, u);
    Head(Waiters(s, p));
    assert p in s.waiting ==> ListOk(s, p);
  }

  /** The last thread of a process but init: the process exits. */
  lemma LastOut<P, T>(s: State<P, T>, t: T)
    requires Inv(s) && Legal(s, t, Vanish) && s.fam.procs[s.fam.owner[t]].active == 1 && s.fam.owner[t] != s.fam.init
    ensures var p, f := s.fam.owner[t], L.Withdrawn(s.fam, t);
      && L.Forest(f) && p in f.procs && f.init == s.fam.init && f.procs[p].life.Alive? && f.procs[p].parent == s.fam.procs[p].parent
      && L.VanishStep(s.fam, t) == L.Exit(f, p) && L.Inv(L.Exit(f, p))
      && Told(s, t) == s.fam.procs[p].parent && s.fam.procs[p].parent != Some(p)
  {
    hide L.KinOk;
    var p, f := s.fam.owner[t], L.Withdrawn(s.fam, t);
    L.VanishExact(s.fam, t);
    L.WithdrawnForest(s.fam, t);
    RunnerAlive(s, t);
    NotOwnParent(s.fam, p);
    hide L.Inv;
    L.ExitEffect(f, p);
    hide L.Exit;
    hide L.Forest;
  }

  lemma NotOwnParent<P, T>(f: L.State<P, T>, p: P)
    requires L.Inv(f) && p in f.procs
    ensures f.procs[p].parent != Some(p)
  {
    assert L.KinOk(f, p);
  }

  lemma LastCount<P, T>(s: State<P, T>, t: T, q: P)
    requires Inv(s) && Legal(s, t, Vanish) && s.fam.procs[s.fam.owner[t]].active == 1 && s.fam.owner[t] != s.fam.init
    requires q != s.fam.owner[t]
    ensures var p := s.fam.owner[t];
      |Zombies(L.VanishStep(s.fam, t), q)| ==
        |Zombies(s.fam, q)| + (if q == s.fam.init then |Zombies(s.fam, p)| else 0) + (if Told(s, t) == Some(q) then 1 else 0)
  {
    hide L.Exit;
    hide L.Forest;
    hide L.Inv;
    hide Told;
    hide Zombies;
    hide L.VanishStep;
    LastOut(s, t);
    ExitCount(L.Withdrawn(s.fam, t), s.fam.owner[t], q);
    WithdrawnZombies(s.fam, t, q);
    WithdrawnZombies(s.fam, t, s.fam.owner[t]);
  }

  lemma LastClaims<P, T>(s: State<P, T>, t: T)
    requires Good(s) && Legal(s, t, Vanish) && s.fam.procs[s.fam.owner[t]].active == 1 && s.fam.owner[t] != s.fam.init
    ensures Claims(s.(fam := L.VanishStep(s.fam, t)))
  {
    hide L.Exit;
    hide L.Forest;
    hide L.Inv;
    hide Told;
    hide L.VanishStep;
    LastOut(s, t);
    VanishStays(s, t);
    ExitingIdle(s, t);
    var p, f := s.fam.owner[t], L.Withdrawn(s.fam, t);
    forall u | u in s.pc && At(s, u).Found? && Claim(s, u, At(s, u).child)
      ensures LR.Collectable(L.Exit(f, p), s.fam.owner[u], At(s, u).child.value)
    {
      ExitZombies(f, p, At(s, u).child.value, s.fam.owner[u]);
    }
    FamilyClaims(s, L.Exit(f, p));
  }

  /** The state after the vanish but before anyone is woken, and then after it. */
  lemma LastPromptAt<P, T>(s: State<P, T>, t: T, q: P)
    requires Good(s) && Legal(s, t, Vanish) && s.fam.procs[s.fam.owner[t]].active == 1 && s.fam.owner[t] != s.fam.init
    requires q in s.fam.procs
    ensures PromptAt(VanishStep(s, t), q) <==> (q == s.fam.init ==> LeavesNone(s, t))
  {
    hide L.Inv;
    hide L.VanishStep;
    hide Zombies;
    hide Awake;
    hide Told;
    var p, f := s.fam.owner[t], L.VanishStep(s.fam, t);
    var s1, s' := s.(fam := f), VanishStep(s, t);
    assert PromptAt(s, q);
    LastOut(s, t);
    ExitingIdle(s, t);
    VanishStays(s, t);
    FamilyInv(s, f);
    FamilyAwake(s, f, q);
    var up := Told(s, t);
    if up.Some? && Waiters(s, up.value) != [] {
      WokenInv(s1, up.value);
    }
    if q != p {
      LastCount(s, t, q);
    }
  }

  /** A vanishing thread tells the parent of its process exactly if it is the last one;
      the process of init has no parent to tell. */
  lemma ToldExact<P, T>(s: State<P, T>, t: T)
    requires Inv(s) && Legal(s, t, Vanish)
    ensures Told(s, t) == if s.fam.procs[s.fam.owner[t]].active == 1 then s.fam.procs[s.fam.owner[t]].parent else None
  {
    hide L.Inv;
    hide L.Exit;
    var p := s.fam.owner[t];
    L.WithdrawnCounted(s.fam, t, p);
    if s.fam.procs[p].active == 1 {
      if p != s.fam.init {
        LastOut(s, t);
      } else {
        L.InvForest(s.fam);
        L.WithdrawnForest(s.fam, t);
        RunnerAlive(s, t);
        L.InitIsRoot(s.fam);
        L.InitExitEffect(L.Withdrawn(s.fam, t));
      }
    }
  }

  lemma LastExact<P, T>(s: State<P, T>, t: T)
    requires Good(s) && Legal(s, t, Vanish) && s.fam.procs[s.fam.owner[t]].active == 1 && s.fam.owner[t] != s.fam.init
    ensures Good(VanishStep(s, t)) <==> LeavesNone(s, t)
  {
    hide L.Inv;
    hide L.VanishStep;
    hide PromptAt;
    hide Told;
    hide LeavesNone;
    var f := L.VanishStep(s.fam, t);
    var s1, s', up := s.(fam := f), VanishStep(s, t), Told(s, t);
    LastOut(s, t);
    VanishStays(s, t);
    FamilyInv(s, f);
    LastClaims(s, t);
    if up.Some? && Waiters(s, up.value) != [] {
      WokenInv(s1, up.value);
    }
    assert Inv(s') && s'.fam == f && s'.pc == s.pc;
    hide Inv;
    ClaimsOf(s1, s');
    hide Claims;
    hide VanishStep;
    forall q | q in s.fam.procs
      ensures PromptAt(s', q) <==> (q == s.fam.init ==> LeavesNone(s, t))
    {
      LastPromptAt(s, t, q);
    }
  }

  /** Claims do not depend on the waiting lists. */
  lemma ClaimsOf<P, T>(s: State<P, T>, s': State<P, T>)
    requires Claims(s) && s'.fam == s.fam && s'.pc == s.pc
    ensures Claims(s')
  {
    assert forall u :: u in s.pc ==> At(s', u) == At(s, u);
  }

  lemma VanishExact<P, T>(s: State<P, T>, t: T)
    requires Good(s) && Legal(s, t, Vanish)
    ensures Good(VanishStep(s, t)) <==> Timely(s, t, Vanish)
  {
    hide L.Inv;
    hide Claims;
    hide Prompt;
    hide LeavesNone;
    hide L.Exit;
    var p := s.fam.owner[t];
    L.VanishExact(s.fam, t);
    L.WithdrawnCounted(s.fam, t, p);
    if s.fam.procs[p].active > 1 {
      VanishStays(s, t);
      var f := L.Withdrawn(s.fam, t);
      assert VanishStep(s, t) == s.(fam := f);
      FamilyGood(s, f);
    } else if p != s.fam.init {
      LastExact(s, t);
    }
  }

  /** A step keeps wait in order, with no child seen twice and no wake-up missed, if
      and only if it is in time. */
  lemma StepExact<P, T>(s: State<P, T>, t: T, op: Op<P, T>)
    requires Good(s) && Legal(s, t, op)
    ensures Good(Step(s, t, op).0) <==> Timely(s, t, op)
  {
    hide Good;
    hide LookStep;
    hide CheckStep;
    hide CollectStep;
    hide DozeStep;
    hide VanishStep;
    match op
    case Look => LookGood(s, t);
    case Check => CheckExact(s, t);
    case Doze => DozeExact(s, t);
    case Collect => CollectGood(s, t);
    case Vanish => VanishExact(s, t);
    case Other(call) => OtherExact(s, t, call);
  }
}

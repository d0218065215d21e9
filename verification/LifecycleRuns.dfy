/** What every call keeps of the process forest, and what runs of calls guarantee. */
module LifecycleRuns {
  import opened Collections
  import opened Lifecycle

  /** Init keeps a thread, a fork that gets as far as linking the child also gets its
      thread, and no thread fails for want of a lock. */
  ghost predicate Safe<P, T>(s: State<P, T>, op: Op<P, T>)
    requires Legal(s, op)
  {
    match op
    case Fork(parent, _, copied, birth) => birth.Made? || !copied || s.procs[parent].active > 1
    case ThreadFork(_, birth) => !birth.NoLock?
    case Vanish(self) => !(s.owner[self] == s.init && s.procs[s.init].active == 1)
    case _ => true
  }

  lemma CollectInv<P, T>(s: State<P, T>, task: P)
    requires Inv(s) && task in s.procs
    ensures Inv(ResumeStep(s, task).0)
  {
    var child := FirstExited(s, s.procs[task].kids);
    if child.Some? {
      BuriedInv(s, child.value);
    }
  }

  /** The books after a thread that failed for want of a lock are wrong. */
  lemma NoLockBreaks<P, T>(s: State<P, T>, p: P, t: T)
    requires p in s.procs && t !in s.owner
    ensures !Inv(ThreadStep(s, p, NoLock(t)).0)
  {
    var s' := ThreadStep(s, p, NoLock(t)).0;
    assert t == s'.procs[p].family[0] && t in s'.procs[p].family;
    assert !ThreadsOk(s', p);
  }

  /** A child without a thread breaks the books. */
  lemma NoThreadBreaks<P, T>(s: State<P, T>, parent: P, child: P)
    requires parent in s.procs && parent != child
    ensures !Inv(Linked(s, parent, child))
  {
    var s' := Linked(s, parent, child);
    assert s'.procs[child].active == 0 && s'.procs[child].life.Alive?;
    assert !ThreadsOk(s', child);
  }

  /** A call keeps the forest and the books in order if and only if init does not
      lose its last thread, no fork fails half-way and no thread fails for want of
      a lock. */
  lemma StepExact<P, T>(s: State<P, T>, op: Op<P, T>)
    requires Inv(s) && Legal(s, op)
    ensures Inv(Step(s, op).0) <==> Safe(s, op)
  {
    hide KinOk;
    hide Buried;
    hide Exit;
    match op
    case Fork(parent, child, copied, birth) =>
      if copied && s.procs[parent].active <= 1 {
        if birth.Made? {
          BornInv(s, parent, child, birth.thread);
        } else if birth.NoLock? {
          NoLockBreaks(Linked(s, parent, child), child, birth.unborn);
        } else {
          NoThreadBreaks(s, parent, child);
        }
      }
    case ThreadFork(caller, birth) =>
      if birth.Made? {
        StaffedInv(s, caller, birth.thread);
      } else if birth.NoLock? {
        NoLockBreaks(s, caller, birth.unborn);
      }
    case SetStatus(setter, status) => StatusInv(s, setter, status);
    case Vanish(self) => VanishExact(s, self);
    case Wait(task, waiters) => CollectInv(s, task);
    case Resume(woken) => CollectInv(s, woken);
  }

  // ----- exit -----

  /** A process has exited exactly when every thread it ever had has vanished. */
  lemma ExitedExact<P, T>(s: State<P, T>, p: P)
    requires Inv(s) && p in s.procs
    ensures s.procs[p].life.Exited? <==> forall t :: t in s.owner && s.owner[t] == p ==> t in s.gone
  {
    assert ThreadsOk(s, p);
    LiveNone(s.procs[p].family, s.gone);
  }

  // ----- lineage -----

  /** The process at the top of the line of parents: there is one, so the parent
      links form a forest. */
  ghost function RootOf<P, T>(s: State<P, T>, p: P): (r: P)
    requires Inv(s) && p in s.procs
    ensures r in s.procs && s.procs[r].parent.None? && s.procs[r].pid <= s.procs[p].pid
    decreases s.procs[p].pid
  {
    assert KinOk(s, p);
    if s.procs[p].parent.None? then p else RootOf(s, s.procs[p].parent.value)
  }

  /** Every process that has a parent is in exactly one chain, and that is the chain
      of a process that has not exited. */
  lemma OneLiveParent<P, T>(s: State<P, T>, q: P, p: P)
    requires Inv(s) && q in s.procs && p in s.procs
    ensures q in s.procs[p].kids <==> s.procs[q].parent == Some(p)
    ensures q in s.procs[p].kids ==> s.procs[p].life.Alive? && s.procs[p].children == |s.procs[p].kids|
  {
    assert KinOk(s, q) && KinOk(s, p);
  }

  // ----- wait -----

  /** Process `c` is a child of `task` that has exited. */
  predicate Collectable<P, T>(s: State<P, T>, task: P, c: P) {
    c in s.procs && s.procs[c].parent == Some(task) && s.procs[c].life.Exited?
  }

  /** wait collects a child if and only if one has exited, gives up if and only if
      there are no children, and never finds a child without its first thread. */
  lemma WaitExact<P, T>(s: State<P, T>, task: P)
    requires Inv(s) && task in s.procs && s.procs[task].life.Alive?
    ensures var r := ResumeStep(s, task).1;
      && (r.Collected? <==> exists c :: Collectable(s, task, c))
      && (r.ChildrenGone? <==> forall c :: c in s.procs ==> s.procs[c].parent != Some(task))
      && (r.Collected? || r.ChildrenGone? || r.MustWait?)
  {
    assert KinOk(s, task);
    var kids := s.procs[task].kids;
    var child := FirstExited(s, kids);
    forall c | c in s.procs
      ensures c in kids <==> s.procs[c].parent == Some(task)
    {
      OneLiveParent(s, c, task);
    }
    if child.Some? {
      assert Collectable(s, task, child.value);
      assert KinOk(s, child.value);
    } else if kids != [] {
      assert kids[0] in kids;
    }
    hide Inv;
    hide Buried;
  }

  /** exited_child finds the youngest: every younger one is still running. */
  lemma {:induction false} YoungestExited<P, T>(s: State<P, T>, kids: seq<P>) returns (i: nat)
    requires FirstExited(s, kids).Some?
    ensures i < |kids| && kids[i] == FirstExited(s, kids).value
    ensures forall j :: 0 <= j < i && kids[j] in s.procs ==> s.procs[kids[j]].life.Alive?
  {
    if kids[0] in s.procs && s.procs[kids[0]].life.Exited? {
      i := 0;
    } else {
      var k := YoungestExited(s, kids[1..]);
      i := k + 1;
      assert forall j :: 1 <= j < i ==> kids[j] == kids[1..][j - 1];
    }
  }

  /** What a successful wait does: the child it names had exited, is gone for good
      with all its threads, and the caller has one child less. */
  lemma CollectEffect<P, T>(s: State<P, T>, task: P) returns (c: P)
    requires Inv(s) && task in s.procs && s.procs[task].life.Alive? && ResumeStep(s, task).1.Collected?
    ensures FirstExited(s, s.procs[task].kids) == Some(c)
    ensures Collectable(s, task, c) && ResumeStep(s, task).1 == Collected(s.procs[c].original.value, s.procs[c].status)
    ensures forall t :: t in s.procs[c].family ==> t in s.gone
    ensures var s' := ResumeStep(s, task).0;
      && c !in s'.procs && s'.buried == s.buried + {c} && c !in s.buried
      && s'.procs.Keys == s.procs.Keys - {c}
      && s'.procs[task].children == s.procs[task].children - 1
      && (forall t :: t in s'.owner <==> t in s.owner && s.owner[t] != c)
      && (forall q :: q in s'.procs && q != task ==> s'.procs[q] == s.procs[q])
  {
    var child := FirstExited(s, s.procs[task].kids);
    assert KinOk(s, task);
    c := child.value;
    assert KinOk(s, c) && ThreadsOk(s, c);
    LiveNone(s.procs[c].family, s.gone);
    BuriedEffect(s, c);
    hide Buried;
    hide Live;
    forall t
      ensures t in s.owner && s.owner[t] != c <==> t in s.owner && t !in s.procs[c].family
    {
    }
  }

  // ----- runs -----

  /** Where a process is in its life: unborn, alive, exited or buried. */
  function Stage<P, T>(s: State<P, T>, p: P): nat {
    if p in s.buried then 3 else if p !in s.procs then 0 else if s.procs[p].life.Alive? then 1 else 2
  }

  lemma CollectStage<P, T>(s: State<P, T>, task: P, p: P)
    requires Inv(s) && task in s.procs && s.procs[task].life.Alive?
    ensures Stage(s, p) <= Stage(ResumeStep(s, task).0, p) <= Stage(s, p) + 1
  {
    if ResumeStep(s, task).1.Collected? {
      var c := FirstExited(s, s.procs[task].kids).value;
      BuriedEffect(s, c);
      hide Buried;
    }
    hide Inv;
  }

  lemma VanishStage<P, T>(s: State<P, T>, t: T, p: P)
    requires Inv(s) && Legal(s, Vanish(t)) && s.owner[t] != s.init
    ensures Stage(s, p) <= Stage(VanishStep(s, t), p) <= Stage(s, p) + 1
  {
    hide KinOk;
    hide Exit;
    hide Counted;
    var q := s.owner[t];
    assert ThreadsOk(s, q);
    WithdrawnCounted(s, t, q);
    hide Inv;
    WithdrawnForest(s, t);
    hide Forest;
    ExitEffect(Withdrawn(s, t), q);
    assert p in s.procs && p != q ==> VanishStep(s, t).procs[p].life == s.procs[p].life;
  }

  lemma VanishInitStage<P, T>(s: State<P, T>, t: T, p: P)
    requires Inv(s) && Legal(s, Vanish(t)) && Safe(s, Vanish(t)) && s.owner[t] == s.init
    ensures Stage(VanishStep(s, t), p) == Stage(s, p)
  {
    WithdrawnCounted(s, t, s.init);
  }

  /** A process only ever moves from one stage of its life to the next. */
  lemma StageStep<P, T>(s: State<P, T>, op: Op<P, T>, p: P)
    requires Inv(s) && Legal(s, op) && Safe(s, op)
    ensures Stage(s, p) <= Stage(Step(s, op).0, p) <= Stage(s, p) + 1
  {
    hide KinOk;
    hide Exit;
    hide Buried;
    hide NoDuplicates;
    hide Live;
    match op
    case Fork(_, _, _, _) =>
    case ThreadFork(_, _) =>
    case SetStatus(_, _) =>
    case Vanish(self) =>
      if s.owner[self] == s.init {
        VanishInitStage(s, self, p);
      } else {
        VanishStage(s, self, p);
      }
    case Wait(task, _) => CollectStage(s, task, p);
    case Resume(woken) => CollectStage(s, woken, p);
  }

  /** The kernel at boot: init with one thread. */
  function Boot<P(==), T(==)>(init: P, t: T): State<P, T> {
    State(map[init := Process(1, Alive, None, [], 0, [t], 1, Some(t), -1)], init, map[t := init], {}, {}, 2)
  }

  lemma BootInv<P, T>(init: P, t: T)
    ensures Inv(Boot(init, t))
  {
    assert Live([t], {}) == 1;
  }

  ghost function Run<P, T>(s: State<P, T>, ops: seq<Op<P, T>>): State<P, T> {
    if ops == [] then s
    else
      var before, op := Run(s, ops[..|ops| - 1]), ops[|ops| - 1];
      if Legal(before, op) then Step(before, op).0 else before
  }

  ghost predicate Orderly<P, T>(s: State<P, T>, ops: seq<Op<P, T>>) {
    ops == [] ||
    (var before, op := ops[..|ops| - 1], ops[|ops| - 1];
     Orderly(s, before) && Legal(Run(s, before), op) && Safe(Run(s, before), op))
  }

  /** How many calls of the run collected a child. */
  ghost function Reaped<P, T>(s: State<P, T>, ops: seq<Op<P, T>>): nat {
    if ops == [] then 0
    else
      var before, op := Run(s, ops[..|ops| - 1]), ops[|ops| - 1];
      Reaped(s, ops[..|ops| - 1]) + if Legal(before, op) && Step(before, op).1.Collected? then 1 else 0
  }

  lemma BuriedCount<P, T>(s: State<P, T>, op: Op<P, T>)
    requires Inv(s) && Legal(s, op)
    ensures |Step(s, op).0.buried| == |s.buried| + if Step(s, op).1.Collected? then 1 else 0
  {
    hide KinOk;
    hide ThreadsOk;
    if Step(s, op).1.Collected? {
      var task := if op.Wait? then op.task else op.woken;
      var c := CollectEffect(s, task);
    }
  }

  /** Over every orderly run the forest and the books stay in order, each process
      goes through its life once and in order, and no child is collected twice:
      there are as many buried processes as successful waits. */
  lemma {:induction false} RunInv<P, T>(s: State<P, T>, ops: seq<Op<P, T>>, p: P)
    requires Inv(s) && Orderly(s, ops)
    ensures Inv(Run(s, ops)) && Stage(s, p) <= Stage(Run(s, ops), p)
    ensures |Run(s, ops).buried| == |s.buried| + Reaped(s, ops)
  {
    hide Inv;
    hide Step;
    hide Stage;
    if ops != [] {
      var before, op := ops[..|ops| - 1], ops[|ops| - 1];
      RunInv(s, before, p);
      StepExact(Run(s, before), op);
      StageStep(Run(s, before), op, p);
      BuriedCount(Run(s, before), op);
    }
  }

  // ----- what holds whatever fails -----

  /** The chains are in order, and no process counts fewer threads than it has. */
  ghost predicate Sturdy<P, T>(s: State<P, T>) {
    && Forest(s) && s.procs[s.init].life.Alive?
    && (forall p :: p in s.procs ==> Booked(s, p))
    && (forall t :: t in s.owner ==> s.owner[t] in s.procs && t in s.procs[s.owner[t]].family)
  }

  lemma InvSturdy<P, T>(s: State<P, T>)
    requires Inv(s)
    ensures Sturdy(s)
  {
    hide KinOk;
    hide Live;
    forall p | p in s.procs
      ensures Booked(s, p)
    {
      assert ThreadsOk(s, p);
    }
  }

  lemma StaffedSturdy<P, T>(s: State<P, T>, p: P, t: T, entered: bool)
    requires Sturdy(s) && p in s.procs && s.procs[p].life.Alive? && New(s, t)
    ensures Sturdy(if entered then Staffed(s, p, t) else Staffed(s, p, t).(owner := s.owner))
  {
    hide KinOk;
    hide Booked;
    hide Forest;
    hide New;
    var s' := if entered then Staffed(s, p, t) else Staffed(s, p, t).(owner := s.owner);
    SameKinForest(s, s');
    forall q | q in s'.procs
      ensures Booked(s', q)
    {
      assert Booked(s, q);
      StaffedBooked(s, p, t, entered, q);
    }
    assert s'.procs[p].family == [t] + s.procs[p].family;
  }

  lemma StaffedBooked<P, T>(s: State<P, T>, p: P, t: T, entered: bool, q: P)
    requires p in s.procs && s.procs[p].life.Alive? && New(s, t) && q in s.procs && Booked(s, q)
    ensures Booked(if entered then Staffed(s, p, t) else Staffed(s, p, t).(owner := s.owner), q)
  {
    hide Live;
    if q == p {
      LiveNewcomer(s.procs[p].family, s.gone, t);
    }
  }

  lemma ThreadSturdy<P, T>(s: State<P, T>, p: P, birth: Birth<T>)
    requires Sturdy(s) && p in s.procs && s.procs[p].life.Alive? && Unborn(s, birth)
    ensures Sturdy(ThreadStep(s, p, birth).0)
  {
    hide Sturdy;
    match birth
    case NoMemory =>
    case NoLock(t) => StaffedSturdy(s, p, t, false);
    case Made(t) => StaffedSturdy(s, p, t, true);
  }

  lemma LinkedSturdy<P, T>(s: State<P, T>, parent: P, child: P)
    requires Sturdy(s) && parent in s.procs && s.procs[parent].life.Alive? && child !in s.procs
    ensures Sturdy(Linked(s, parent, child))
    ensures forall t :: New(s, t) ==> New(Linked(s, parent, child), t)
  {
    hide KinOk;
    hide Linked;
    LinkedForest(s, parent, child);
    LinkedEffect(s, parent, child);
    var s' := Linked(s, parent, child);
    forall q | q in s'.procs
      ensures Booked(s', q)
    {
      assert q != child ==> Booked(s, q);
    }
  }

  lemma WithdrawnSturdy<P, T>(s: State<P, T>, t: T)
    requires Sturdy(s) && Legal(s, Vanish(t))
    ensures var s', p := Withdrawn(s, t), s.owner[t];
      && Sturdy(s') && p in s'.procs && s.procs[p].active > 0 && s'.procs[p].active == s.procs[p].active - 1
      && s'.procs[p].life.Alive? && s'.init == s.init
  {
    hide KinOk;
    hide Live;
    var s', p := Withdrawn(s, t), s.owner[t];
    SameKinForest(s, s');
    hide Forest;
    assert Booked(s, p);
    LiveAfter(s.procs[p].family, s.gone, t);
    LiveNone(s.procs[p].family, s.gone);
    forall q | q in s'.procs
      ensures Booked(s', q)
    {
      assert Booked(s, q);
      LiveAfter(s.procs[q].family, s.gone, t);
    }
  }

  lemma ExitSturdy<P, T>(s: State<P, T>, p: P)
    requires Sturdy(s) && p in s.procs && p != s.init && s.procs[p].life.Alive? && s.procs[p].active == 0
    ensures Sturdy(Exit(s, p))
  {
    hide KinOk;
    hide Exit;
    hide Live;
    ExitForest(s, p);
    ExitEffect(s, p);
    var s' := Exit(s, p);
    forall q | q in s'.procs
      ensures Booked(s', q) && s'.procs[q].family == s.procs[q].family
    {
      assert Booked(s, q);
    }
  }

  lemma VanishSturdy<P, T>(s: State<P, T>, t: T)
    requires Sturdy(s) && Legal(s, Vanish(t))
    ensures Sturdy(VanishStep(s, t)) <==> !(s.owner[t] == s.init && s.procs[s.init].active == 1)
  {
    hide KinOk;
    hide Exit;
    hide Booked;
    WithdrawnSturdy(s, t);
    var s1, p := Withdrawn(s, t), s.owner[t];
    if s1.procs[p].active == 0 {
      if p != s.init {
        ExitSturdy(s1, p);
      } else {
        InitExits(s1);
      }
    }
  }

  lemma InitExits<P, T>(s: State<P, T>)
    requires s.init in s.procs
    ensures Exit(s, s.init).init == s.init && s.init in Exit(s, s.init).procs && Exit(s, s.init).procs[s.init].life.Exited?
  {
  }

  lemma CollectSturdy<P, T>(s: State<P, T>, task: P)
    requires Sturdy(s) && task in s.procs
    ensures Sturdy(ResumeStep(s, task).0)
  {
    hide KinOk;
    hide Buried;
    var child := FirstExited(s, s.procs[task].kids);
    if child.Some? {
      BuriedSturdy(s, child.value);
    }
  }

  lemma BuriedSturdy<P, T>(s: State<P, T>, c: P)
    requires Sturdy(s) && c in s.procs && s.procs[c].life.Exited?
    ensures Sturdy(Buried(s, c))
  {
    hide KinOk;
    hide Buried;
    hide Live;
    hide Without;
    BuriedForest(s, c);
    BuriedEffect(s, c);
    var s' := Buried(s, c);
    forall q | q in s'.procs
      ensures Booked(s', q) && s'.procs[q].family == s.procs[q].family && s'.procs[q].life == s.procs[q].life
    {
      assert Booked(s, q);
    }
  }

  /** Whichever way create_thread ends, a call keeps the chains in order, and no process
      counts fewer threads than it has, if and only if init keeps a thread. */
  lemma SturdyExact<P, T>(s: State<P, T>, op: Op<P, T>)
    requires Sturdy(s) && Legal(s, op)
    ensures Sturdy(Step(s, op).0) <==> !(op.Vanish? && s.owner[op.self] == s.init && s.procs[s.init].active == 1)
  {
    hide Sturdy;
    hide VanishStep;
    hide ResumeStep;
    hide ThreadStep;
    hide New;
    match op
    case Fork(parent, child, copied, birth) =>
      if copied && s.procs[parent].active <= 1 {
        LinkedSturdy(s, parent, child);
        ThreadSturdy(Linked(s, parent, child), child, birth);
      }
    case ThreadFork(caller, birth) => ThreadSturdy(s, caller, birth);
    case SetStatus(setter, status) => StatusSturdy(s, setter, status);
    case Vanish(self) => VanishSturdy(s, self);
    case Wait(task, _) => CollectSturdy(s, task);
    case Resume(woken) => CollectSturdy(s, woken);
  }

  lemma StatusSturdy<P, T>(s: State<P, T>, p: P, status: int)
    requires Sturdy(s) && p in s.procs
    ensures Sturdy(StatusStep(s, p, status))
  {
    hide KinOk;
    hide Live;
    var s' := StatusStep(s, p, status);
    SameKinForest(s, s');
    forall q | q in s'.procs
      ensures Booked(s', q)
    {
      assert Booked(s, q);
    }
  }

  /** Every step of the run is asked for legally, whether or not it keeps to the
      rules. */
  ghost predicate Lawful<P, T>(s: State<P, T>, ops: seq<Op<P, T>>) {
    ops == [] ||
    (var before, op := ops[..|ops| - 1], ops[|ops| - 1];
     Lawful(s, before) && Legal(Run(s, before), op))
  }

  /** Init never loses its last thread in the run. */
  ghost predicate InitLives<P, T>(s: State<P, T>, ops: seq<Op<P, T>>) {
    ops == [] ||
    (var before, op := Run(s, ops[..|ops| - 1]), ops[|ops| - 1];
     && InitLives(s, ops[..|ops| - 1])
     && (op.Vanish? && op.self in before.owner && before.init in before.procs ==>
           !(before.owner[op.self] == before.init && before.procs[before.init].active == 1)))
  }

  /** Over every run, whatever fails: the forest stays a forest while init lives. */
  lemma {:induction false} RunSturdy<P, T>(s: State<P, T>, ops: seq<Op<P, T>>)
    requires Sturdy(s) && Lawful(s, ops) && InitLives(s, ops)
    ensures Sturdy(Run(s, ops))
  {
    hide Sturdy;
    hide Step;
    if ops != [] {
      var before, op := ops[..|ops| - 1], ops[|ops| - 1];
      RunSturdy(s, before);
      SturdyExact(Run(s, before), op);
    }
  }

  // ----- the exit status and the first thread -----

  /** The status `p` last set along the run, -1 if it set none. */
  function LastSet<P(==), T>(ops: seq<Op<P, T>>, p: P): int {
    if ops == [] then -1
    else if ops[|ops| - 1].SetStatus? && ops[|ops| - 1].setter == p then ops[|ops| - 1].status
    else LastSet(ops[..|ops| - 1], p)
  }

  /** A call changes the status of nobody but its caller's process, and that only by
      set_status; a child starts with -1. */
  lemma StatusEffect<P, T>(s: State<P, T>, op: Op<P, T>, p: P)
    requires Legal(s, op) && p in Step(s, op).0.procs
    ensures var x' := Step(s, op).0.procs[p];
      if p !in s.procs then x'.status == -1 && op.Fork? && op.child == p
      else x'.status == if op.SetStatus? && op.setter == p then op.status else s.procs[p].status
  {
    hide Without;
    hide FirstExited;
    hide New;
    match op
    case Fork(_, _, _, _) =>
    case ThreadFork(_, _) =>
    case SetStatus(_, _) =>
    case Vanish(self) => ExitStatus(Withdrawn(s, self), s.owner[self], p);
    case Wait(_, _) =>
    case Resume(_) =>
  }

  lemma ExitStatus<P, T>(s: State<P, T>, q: P, p: P)
    requires q in s.procs && s.init in s.procs
    ensures Exit(s, q).procs.Keys == s.procs.Keys
    ensures p in s.procs ==> Exit(s, q).procs[p].status == s.procs[p].status && Exit(s, q).procs[p].original == s.procs[p].original
  {
  }

  /** Processes do not come back, and only bury adds to the buried. */
  lemma Gone<P, T>(s: State<P, T>, op: Op<P, T>, p: P)
    requires Legal(s, op)
    ensures p in s.procs ==> p in Step(s, op).0.procs || p in Step(s, op).0.buried
    ensures p in s.buried ==> p in Step(s, op).0.buried
    ensures p !in s.procs && p in Step(s, op).0.procs ==> p !in s.buried
  {
    hide Without;
    hide FirstExited;
    hide New;
    if op.Vanish? {
      ExitStatus(Withdrawn(s, op.self), s.owner[op.self], p);
    }
  }

  /** Over every run from boot, whatever fails: the status of a process is the one it
      last set, or -1. */
  lemma {:induction false} StatusExact<P, T>(init: P, t: T, ops: seq<Op<P, T>>, p: P)
    requires Lawful(Boot(init, t), ops)
    ensures var s := Run(Boot(init, t), ops);
      && (p in s.procs ==> s.procs[p].status == LastSet(ops, p))
      && (p !in s.procs && p !in s.buried ==> LastSet(ops, p) == -1)
  {
    hide Step;
    hide Legal;
    if ops != [] {
      var before, op := ops[..|ops| - 1], ops[|ops| - 1];
      var s := Run(Boot(init, t), before);
      StatusExact(init, t, before, p);
      Gone(s, op, p);
      if p in Step(s, op).0.procs {
        StatusEffect(s, op, p);
      } else {
        SetterThere(s, op, p);
      }
    }
  }

  lemma SetterThere<P, T>(s: State<P, T>, op: Op<P, T>, p: P)
    requires Legal(s, op)
    ensures op.SetStatus? && op.setter == p ==> p in Step(s, op).0.procs
  {
  }

  /** So a wait that collects a process hands out the status it last set. */
  lemma WaitReturnsStatus<P, T>(init: P, t: T, ops: seq<Op<P, T>>, op: Op<P, T>)
    requires Lawful(Boot(init, t), ops) && Legal(Run(Boot(init, t), ops), op)
    requires Step(Run(Boot(init, t), ops), op).1.Collected?
    ensures var s := Run(Boot(init, t), ops);
      && (op.Wait? || op.Resume?)
      && var task := if op.Wait? then op.task else op.woken;
      && var c := FirstExited(s, s.procs[task].kids);
      && c.Some? && Step(s, op).1.status == LastSet(ops, c.value) && Some(Step(s, op).1.tid) == s.procs[c.value].original
  {
    hide Run;
    hide Boot;
    hide Lawful;
    hide Buried;
    var s := Run(Boot(init, t), ops);
    CollectsFirst(s, op);
    hide Step;
    var task := if op.Wait? then op.task else op.woken;
    StatusExact(init, t, ops, FirstExited(s, s.procs[task].kids).value);
  }

  lemma CollectsFirst<P, T>(s: State<P, T>, op: Op<P, T>)
    requires Legal(s, op) && Step(s, op).1.Collected?
    ensures op.Wait? || op.Resume?
    ensures var task := if op.Wait? then op.task else op.woken;
      var c := FirstExited(s, s.procs[task].kids);
      c.Some? && Step(s, op).1.status == s.procs[c.value].status && Some(Step(s, op).1.tid) == s.procs[c.value].original
  {
    hide Buried;
    hide FirstExited;
  }

  /** The original thread of a process is the first one it got, and stays that. */
  lemma OriginalEffect<P, T>(s: State<P, T>, op: Op<P, T>, p: P)
    requires Legal(s, op) && p in s.procs && p in Step(s, op).0.procs
    ensures s.procs[p].original.Some? ==> Step(s, op).0.procs[p].original == s.procs[p].original
    ensures s.procs[p].original.None? && Step(s, op).0.procs[p].original.Some? ==>
      op.ThreadFork? && op.caller == p && Step(s, op).0.procs[p].original.value == Step(s, op).0.procs[p].family[0]
  {
    hide Without;
    hide FirstExited;
    hide New;
    if op.Vanish? {
      ExitStatus(Withdrawn(s, op.self), s.owner[op.self], p);
    }
  }

  /** Over every run, whatever fails. */
  lemma {:induction false} OriginalStays<P, T>(s: State<P, T>, ops: seq<Op<P, T>>, p: P)
    requires Lawful(s, ops) && p in s.procs && s.procs[p].original.Some? && p in Run(s, ops).procs
    ensures Run(s, ops).procs[p].original == s.procs[p].original
  {
    hide Step;
    hide Legal;
    if ops != [] {
      var before, op := ops[..|ops| - 1], ops[|ops| - 1];
      StillThere(s, ops, p);
      OriginalStays(s, before, p);
      OriginalEffect(Run(s, before), op, p);
    }
  }

  lemma {:induction false} BuriedForGood<P, T>(s: State<P, T>, ops: seq<Op<P, T>>, p: P)
    requires Lawful(s, ops) && (p in s.procs || p in s.buried)
    ensures p in Run(s, ops).procs || p in Run(s, ops).buried
  {
    hide Step;
    hide Legal;
    if ops != [] {
      BuriedForGood(s, ops[..|ops| - 1], p);
      Gone(Run(s, ops[..|ops| - 1]), ops[|ops| - 1], p);
    }
  }

  lemma StillThere<P, T>(s: State<P, T>, ops: seq<Op<P, T>>, p: P)
    requires ops != [] && Lawful(s, ops) && p in s.procs && p in Run(s, ops).procs
    ensures p in Run(s, ops[..|ops| - 1]).procs
  {
    hide Step;
    hide Legal;
    var before := ops[..|ops| - 1];
    BuriedForGood(s, before, p);
    Gone(Run(s, before), ops[|ops| - 1], p);
  }

  // ----- what wait answers -----

  /** The children of `p`. */
  ghost function Children<P, T>(s: State<P, T>, p: P): set<P> {
    set c | c in s.procs && s.procs[c].parent == Some(p)
  }

  lemma {:induction false} DistinctSize<P>(q: seq<P>)
    requires NoDuplicates(q)
    ensures |set c | c in q| == |q|
  {
    if q != [] {
      DistinctSize(q[1..]);
      assert q == [q[0]] + q[1..] && q[0] !in q[1..];
      assert (set c | c in q) == (set c | c in q[1..]) + {q[0]};
    }
  }

  lemma ChildrenCounted<P, T>(s: State<P, T>, p: P)
    requires Inv(s) && p in s.procs && s.procs[p].life.Alive?
    ensures s.procs[p].children == |Children(s, p)|
  {
    assert KinOk(s, p);
    var kids := s.procs[p].kids;
    DistinctSize(kids);
    forall c
      ensures c in kids <==> c in Children(s, p)
    {
      if c in s.procs {
        OneLiveParent(s, c, p);
      }
    }
    assert (set c | c in kids) == Children(s, p);
  }

  /** What wait answers at once: that there are no children if there are none, that the
      waiters are too many if there are at least as many as children, a child if one has
      exited; else its caller must sleep. */
  lemma WaitAnswers<P, T>(s: State<P, T>, task: P, waiters: nat)
    requires Inv(s) && task in s.procs && s.procs[task].life.Alive?
    ensures var r := WaitStep(s, task, waiters).1;
      if Children(s, task) == {} then r == NoChildren
      else if |Children(s, task)| <= waiters then r == WaitFull
      else if exists c :: c in s.procs && Collectable(s, task, c) then r.Collected?
      else r == MustWait
  {
    hide KinOk;
    hide ThreadsOk;
    hide ResumeStep;
    ChildrenCounted(s, task);
    WaitExact(s, task);
    if c :| c in s.procs && s.procs[c].parent == Some(task) {
      assert c in Children(s, task);
    }
  }

  // ----- what happens outside the rules -----

  /** Process `p` counts the thread `v`, which is in no table and so cannot vanish. */
  ghost predicate Overcounted<P, T>(s: State<P, T>, p: P, v: T) {
    && p in s.procs && s.procs[p].life.Alive? && p !in s.buried
    && v in s.procs[p].family && v !in s.owner && v !in s.gone
    && NoDuplicates(s.procs[p].family)
    && s.procs[p].active == Live(s.procs[p].family, s.gone)
    && (forall t :: t in s.owner && s.owner[t] == p ==> t in s.procs[p].family)
    && (forall t :: t in s.procs[p].family && t in s.owner ==> s.owner[t] == p)
  }

  /** A thread_fork that fails for want of a lock leaves such a process. */
  lemma NoLockOvercounts<P, T>(s: State<P, T>, p: P, v: T)
    requires Inv(s) && Legal(s, ThreadFork(p, NoLock(v)))
    ensures Overcounted(Step(s, ThreadFork(p, NoLock(v))).0, p, v)
  {
    assert ThreadsOk(s, p);
    LiveNewcomer(s.procs[p].family, s.gone, v);
    hide KinOk;
    hide Live;
  }

  /** The exit of another process does not change the books of `p`. */
  lemma ExitElsewhere<P, T>(s: State<P, T>, q: P, p: P)
    requires q in s.procs && s.init in s.procs && p in s.procs && p != q
    ensures Exit(s, q) == s.(procs := Exit(s, q).procs)
    ensures p in Exit(s, q).procs
    ensures var x, x' := s.procs[p], Exit(s, q).procs[p];
      x'.life == x.life && x'.family == x.family && x'.active == x.active
  {
  }

  lemma OvercountedVanish<P, T>(s: State<P, T>, t: T, p: P, v: T)
    requires Overcounted(s, p, v) && Legal(s, Vanish(t))
    ensures Overcounted(VanishStep(s, t), p, v)
  {
    var family := s.procs[p].family;
    LiveAfter(family, s.gone, t);
    LiveNone(family, s.gone + {t});
    assert v !in s.gone + {t};
    hide Live;
    if s.owner[t] == p {
      assert t in family && Withdrawn(s, t).procs[p].active > 0;
    } else {
      ExitElsewhere(Withdrawn(s, t), s.owner[t], p);
      hide Exit;
    }
  }

  lemma OvercountedCollect<P, T>(s: State<P, T>, task: P, p: P, v: T)
    requires Overcounted(s, p, v) && task in s.procs
    ensures Overcounted(ResumeStep(s, task).0, p, v)
  {
    hide Live;
    hide Without;
    hide FirstExited;
  }

  lemma OvercountedThread<P, T>(s: State<P, T>, caller: P, birth: Birth<T>, p: P, v: T)
    requires Overcounted(s, p, v) && caller in s.procs && Unborn(s, birth)
    ensures Overcounted(ThreadStep(s, caller, birth).0, p, v)
  {
    hide Live;
    if birth.Made? {
      LiveNewcomer(s.procs[p].family, s.gone, birth.thread);
    } else if birth.NoLock? {
      LiveNewcomer(s.procs[p].family, s.gone, birth.unborn);
    }
  }

  lemma OvercountedLinked<P, T>(s: State<P, T>, parent: P, child: P, p: P, v: T)
    requires Overcounted(s, p, v) && parent in s.procs && child !in s.procs && child != parent
    ensures Overcounted(Linked(s, parent, child), p, v)
    ensures forall t :: New(s, t) ==> New(Linked(s, parent, child), t)
  {
    hide Live;
  }

  lemma OvercountedStep<P, T>(s: State<P, T>, op: Op<P, T>, p: P, v: T)
    requires Overcounted(s, p, v) && Legal(s, op)
    ensures Overcounted(Step(s, op).0, p, v)
  {
    hide Overcounted;
    hide ThreadStep;
    hide VanishStep;
    hide ResumeStep;
    hide New;
    match op
    case Fork(parent, child, copied, birth) =>
      if copied && s.procs[parent].active <= 1 {
        OvercountedLinked(s, parent, child, p, v);
        OvercountedThread(Linked(s, parent, child), child, birth, p, v);
      }
    case ThreadFork(caller, birth) => OvercountedThread(s, caller, birth, p, v);
    case SetStatus(setter, status) => OvercountedStatus(s, setter, status, p, v);
    case Vanish(self) => OvercountedVanish(s, self, p, v);
    case Wait(task, _) => OvercountedCollect(s, task, p, v);
    case Resume(woken) => OvercountedCollect(s, woken, p, v);
  }

  lemma OvercountedStatus<P, T>(s: State<P, T>, setter: P, status: int, p: P, v: T)
    requires Overcounted(s, p, v) && setter in s.procs
    ensures Overcounted(StatusStep(s, setter, status), p, v)
  {
    hide Live;
  }

  /** A process that counts a thread which does not exist never exits, whatever is
      called afterwards. */
  lemma {:induction false} NeverExits<P, T>(s: State<P, T>, ops: seq<Op<P, T>>, p: P, v: T)
    requires Overcounted(s, p, v) && Lawful(s, ops)
    ensures Overcounted(Run(s, ops), p, v)
  {
    hide Overcounted;
    hide Step;
    hide Legal;
    if ops != [] {
      var before, op := ops[..|ops| - 1], ops[|ops| - 1];
      NeverExits(s, before, p, v);
      OvercountedStep(Run(s, before), op, p, v);
    }
  }

  /** Process `c` has no thread and has not exited. */
  ghost predicate Threadless<P, T>(s: State<P, T>, c: P) {
    && c in s.procs && s.procs[c].life.Alive? && c !in s.buried
    && (forall t :: t in s.owner ==> s.owner[t] != c)
  }

  lemma ThreadlessStep<P, T>(s: State<P, T>, op: Op<P, T>, c: P)
    requires Threadless(s, c) && Legal(s, op)
    ensures Threadless(Step(s, op).0, c)
  {
    hide Without;
    hide FirstExited;
    match op
    case Fork(_, _, _, _) =>
    case ThreadFork(_, _) =>
    case SetStatus(_, _) =>
    case Vanish(self) =>
      ExitElsewhere(Withdrawn(s, self), s.owner[self], c);
      hide Exit;
    case Wait(_, _) =>
    case Resume(_) =>
  }

  /** A child that a fork leaves without a thread never exits and so is never
      collected, whatever is called afterwards. */
  lemma {:induction false} NeverCollected<P, T>(s: State<P, T>, ops: seq<Op<P, T>>, c: P)
    requires Threadless(s, c) && Lawful(s, ops)
    ensures Threadless(Run(s, ops), c)
  {
    hide Threadless;
    hide Step;
    hide Legal;
    if ops != [] {
      var before, op := ops[..|ops| - 1], ops[|ops| - 1];
      NeverCollected(s, before, c);
      ThreadlessStep(Run(s, before), op, c);
    }
  }

  /** The first fork after boot fails for want of memory for the thread: init has a
      child that it can only wait for. */
  lemma ThreadlessReachable<P, T>(init: P, t: T, c: P)
    requires c != init
    ensures var s, op := Boot(init, t), Fork(init, c, true, NoMemory);
      && Legal(s, op) && Step(s, op).1 == NoThread
      && Threadless(Step(s, op).0, c)
      && Step(s, op).0.procs[init].kids == [c]
      && ResumeStep(Step(s, op).0, init) == (Step(s, op).0, MustWait)
  {
    var s := Boot(init, t);
    assert t in s.owner && s.owner[t] == init;
    assert CanCall(s, init);
    var s' := Linked(s, init, c);
    assert s'.procs[init].kids == [c] && FirstExited(s', [c]) == None;
  }

  /** After boot init forks a child with one thread. */
  lemma ForkedChild<P, T>(init: P, t: T, c: P, u: T)
    requires c != init && t != u
    ensures var s, op := Boot(init, t), Fork(init, c, true, Made(u));
      && Legal(s, op)
      && var s' := Step(s, op).0;
      && Inv(s') && c in s'.procs && s'.init == init
      && s'.procs[c] == Process(2, Alive, Some(init), [], 0, [u], 1, Some(u), -1)
      && s'.owner == map[t := init, u := c] && s'.gone == {}
  {
    BootInv(init, t);
    var s := Boot(init, t);
    assert t in s.owner && s.owner[t] == init && CanCall(s, init) && New(s, u);
    StepExact(s, Fork(init, c, true, Made(u)));
    hide Inv;
  }

  lemma LiveOne<T>(u: T, gone: set<T>)
    requires u !in gone
    ensures Live([u], gone) == 1
  {
    assert [u][1..] == [];
  }

  /** A process with one thread asks for another, which fails for want of a lock;
      then its thread vanishes.  No thread is left, and the process has not exited. */
  lemma LastThreadLost<P, T>(s: State<P, T>, c: P, u: T, v: T)
    requires Inv(s) && c in s.procs && s.procs[c].family == [u] && u !in s.gone && New(s, v)
    ensures Legal(s, ThreadFork(c, NoLock(v)))
    ensures var s1 := Step(s, ThreadFork(c, NoLock(v))).0;
      && Overcounted(s1, c, v) && Legal(s1, Vanish(u))
      && var s2 := Step(s1, Vanish(u)).0;
      && Overcounted(s2, c, v) && s2.procs[c].active == 1
      && (forall x :: x in s2.owner && s2.owner[x] == c ==> x in s2.gone)
  {
    hide KinOk;
    hide Live;
    hide NoDuplicates;
    hide Exit;
    assert ThreadsOk(s, c);
    LiveOne(u, s.gone);
    assert u in s.procs[c].family && s.owner[u] == c && CanCall(s, c);
    assert forall x :: x in s.owner && s.owner[x] == c ==> x in s.procs[c].family;
    NoLockOvercounts(s, c, v);
    hide Inv;
    var s1 := Step(s, ThreadFork(c, NoLock(v))).0;
    assert s1.procs[c].active == 2;
    OvercountedVanish(s1, u, c, v);
    hide Overcounted;
  }

  /** Init has exited, has no thread and is nobody's child. */
  ghost predicate DeadInit<P, T>(s: State<P, T>) {
    && s.init in s.procs && s.procs[s.init].life.Exited?
    && (forall t :: t in s.owner && s.owner[t] == s.init ==> t in s.gone)
    && (forall p :: p in s.procs ==> s.init !in s.procs[p].kids)
  }

  /** When the last thread of init vanishes init is gone. */
  lemma InitDies<P, T>(s: State<P, T>, t: T)
    requires Inv(s) && Legal(s, Vanish(t)) && s.owner[t] == s.init && s.procs[s.init].active == 1
    ensures DeadInit(VanishStep(s, t))
  {
    assert ThreadsOk(s, s.init);
    LiveAfter(s.procs[s.init].family, s.gone, t);
    LiveNone(s.procs[s.init].family, s.gone + {t});
    hide Live;
    InitIsRoot(s);
    forall p | p in s.procs
      ensures s.init !in s.procs[p].kids
    {
      OneLiveParent(s, s.init, p);
    }
  }

  /** The only thread of init vanishes right after boot. */
  lemma InitDiesAtBoot<P, T>(init: P, t: T)
    ensures var s := Boot(init, t);
      Inv(s) && Legal(s, Vanish(t)) && DeadInit(Step(s, Vanish(t)).0)
  {
    BootInv(init, t);
    InitDies(Boot(init, t), t);
  }

  lemma DeadInitStep<P, T>(s: State<P, T>, op: Op<P, T>)
    requires DeadInit(s) && Legal(s, op)
    ensures DeadInit(Step(s, op).0) && Step(s, op).0.init == s.init
  {
    match op
    case Fork(_, _, _, _) =>
    case ThreadFork(_, _) =>
    case SetStatus(_, _) =>
    case Vanish(self) =>
    case Wait(task, _) => DeadInitCollect(s, task);
    case Resume(woken) => DeadInitCollect(s, woken);
  }

  lemma DeadInitCollect<P, T>(s: State<P, T>, task: P)
    requires DeadInit(s) && task in s.procs
    ensures DeadInit(ResumeStep(s, task).0) && ResumeStep(s, task).0.init == s.init
  {
    forall p, c | p in s.procs
      ensures s.init !in Without(s.procs[p].kids, c)
    {
      WithoutSubset(s.procs[p].kids, c);
    }
    hide Without;
  }

  /** Once init is gone it never waits again, whatever is called: its children, and
      all orphans it is given later, are never collected. */
  lemma {:induction false} InitStaysDead<P, T>(s: State<P, T>, ops: seq<Op<P, T>>, n: nat)
    requires DeadInit(s) && Lawful(s, ops)
    ensures var s' := Run(s, ops);
      && DeadInit(s') && s'.init == s.init
      && !Legal(s', Wait(s.init, n)) && !Legal(s', Resume(s.init))
  {
    hide Step;
    if ops != [] {
      var before, op := ops[..|ops| - 1], ops[|ops| - 1];
      hide Legal;
      InitStaysDead(s, before, n);
      DeadInitStep(Run(s, before), op);
    }
    DeadInitSilent(Run(s, ops), n);
    hide DeadInit;
    hide Legal;
  }

  lemma DeadInitSilent<P, T>(s: State<P, T>, n: nat)
    requires DeadInit(s)
    ensures !Legal(s, Wait(s.init, n)) && !Legal(s, Resume(s.init))
  {
  }
}

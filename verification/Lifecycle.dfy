/** Processes and their threads (kern/prog/process.c, kern/prog/thread.c,
    kern/syscall/lifecycle.c): who is whose child, who has exited, and who has been
    collected by wait.  `P` are the processes and `T` the threads.  A process that
    has been buried is no longer in the table. */
module Lifecycle {
  import opened Collections

  datatype Life = Alive | Exited

  /** `kids` is the sibling chain, youngest first, and `children` the count kept
      beside it; `family` are the threads, youngest first, and `active` the count of
      those that have not vanished; `status` is the exit status. */
  datatype Process<P, T> = Process(
    pid: nat, life: Life, parent: Option<P>, kids: seq<P>, children: nat,
    family: seq<T>, active: nat, original: Option<T>, status: int)

  /** `gone` are the threads that have vanished, `buried` the processes that have
      been collected. */
  datatype State<P(==), T(==)> = State(
    procs: map<P, Process<P, T>>, init: P, owner: map<T, P>, gone: set<T>, buried: set<P>, nextPid: nat)

  datatype Outcome<T> =
    | Done
    | MultipleThreads
    | NoCopy
    | NoThread
    | NoChildren
    | WaitFull
    | MustWait
    | ChildrenGone
    | NoOriginal
    | Collected(tid: T, status: int)

  /** How create_thread ends: it fails before it touches the process, it fails for
      want of a lock after it has entered the thread in the books of the process, or
      it succeeds. */
  datatype Birth<T> = NoMemory | NoLock(unborn: T) | Made(thread: T)

  /** `copied` says whether copy_process gets as far as the family links. */
  datatype Op<P, T> =
    | Fork(parent: P, child: P, copied: bool, birth: Birth<T>)
    | ThreadFork(caller: P, birth: Birth<T>)
    | SetStatus(setter: P, status: int)
    | Vanish(self: T)
    | Wait(task: P, waiters: nat)
    | Resume(woken: P)

  // ----- birth -----

  /** The family links of copy_process. */
  function Linked<P, T>(s: State<P, T>, parent: P, child: P): State<P, T>
    requires parent in s.procs
  {
    var p := s.procs[parent];
    var c := Process(s.nextPid, Alive, Some(parent), [], 0, [], 0, None, -1);
    s.(procs := s.procs[parent := p.(kids := [child] + p.kids, children := p.children + 1)][child := c], nextPid := s.nextPid + 1)
  }

  /** create_thread, when it succeeds. */
  function Staffed<P, T>(s: State<P, T>, p: P, t: T): State<P, T>
    requires p in s.procs
  {
    var x := s.procs[p];
    var original := if x.original.None? then Some(t) else x.original;
    s.(procs := s.procs[p := x.(family := [t] + x.family, active := x.active + 1, original := original)], owner := s.owner[t := p])
  }

  /** create_thread.  When the lock cannot be had the thread is freed and is in no
      table, but the process keeps it in its books. */
  function ThreadStep<P, T>(s: State<P, T>, p: P, birth: Birth<T>): (State<P, T>, Outcome<T>)
    requires p in s.procs
  {
    match birth
    case NoMemory => (s, NoThread)
    case NoLock(t) => (Staffed(s, p, t).(owner := s.owner), NoThread)
    case Made(t) => (Staffed(s, p, t), Done)
  }

  /** Without a thread the child stays in the chain: destroy_process refuses a
      process that has not exited. */
  function ForkStep<P, T>(s: State<P, T>, parent: P, child: P, copied: bool, birth: Birth<T>): (State<P, T>, Outcome<T>)
    requires parent in s.procs
  {
    if s.procs[parent].active > 1 then (s, MultipleThreads)
    else if !copied then (s, NoCopy)
    else ThreadStep(Linked(s, parent, child), child, birth)
  }

  /** set_status */
  function StatusStep<P, T>(s: State<P, T>, p: P, status: int): State<P, T>
    requires p in s.procs
  {
    s.(procs := s.procs[p := s.procs[p].(status := status)])
  }

  // ----- death -----

  /** The table with every process of `orphans` a child of `p`. */
  function Reparented<P, T>(procs: map<P, Process<P, T>>, orphans: seq<P>, p: P): map<P, Process<P, T>> {
    map q | q in procs :: if q in orphans then procs[q].(parent := Some(p)) else procs[q]
  }

  /** vanish_process: init adopts the whole chain in front of its own. */
  function Exit<P, T>(s: State<P, T>, p: P): State<P, T>
    requires p in s.procs && s.init in s.procs
  {
    var x, i := s.procs[p], s.procs[s.init];
    var adopted := if x.children == 0 then s.procs
      else Reparented(s.procs, x.kids, s.init)[s.init := i.(kids := x.kids + i.kids, children := i.children + x.children)];
    if p !in adopted then s else s.(procs := adopted[p := adopted[p].(life := Exited, kids := [])])
  }

  /** vanish_thread */
  function Withdrawn<P, T>(s: State<P, T>, t: T): State<P, T>
    requires t in s.owner && s.owner[t] in s.procs
  {
    var x := s.procs[s.owner[t]];
    s.(procs := s.procs[s.owner[t] := x.(active := if x.active == 0 then 0 else x.active - 1)], gone := s.gone + {t})
  }

  /** vanish_thread, and vanish_process after the last thread. */
  function VanishStep<P, T>(s: State<P, T>, t: T): State<P, T>
    requires t in s.owner && s.owner[t] in s.procs && s.init in s.procs
  {
    var s1, p := Withdrawn(s, t), s.owner[t];
    if s1.procs[p].active == 0 then Exit(s1, p) else s1
  }

  // ----- collection -----

  /** exited_child: the youngest child that has exited. */
  function FirstExited<P, T>(s: State<P, T>, kids: seq<P>): (r: Option<P>)
    ensures r.Some? ==> r.value in kids && r.value in s.procs && s.procs[r.value].life.Exited?
    ensures r.None? ==> forall q :: q in kids && q in s.procs ==> s.procs[q].life.Alive?
  {
    if kids == [] then None
    else if kids[0] in s.procs && s.procs[kids[0]].life.Exited? then Some(kids[0])
    else FirstExited(s, kids[1..])
  }

  /** destroy_process */
  function Buried<P, T>(s: State<P, T>, c: P): State<P, T>
    requires c in s.procs
  {
    var x := s.procs[c];
    var procs := if x.parent.None? || x.parent.value !in s.procs then s.procs
      else
        var p := s.procs[x.parent.value];
        s.procs[x.parent.value := p.(kids := Without(p.kids, c), children := if p.children == 0 then 0 else p.children - 1)];
    s.(procs := procs - {c}, owner := s.owner - (set t | t in x.family), buried := s.buried + {c})
  }

  /** The loop of wait: collect a child, go to sleep, or give up. */
  function ResumeStep<P, T>(s: State<P, T>, task: P): (State<P, T>, Outcome<T>)
    requires task in s.procs
  {
    var x := s.procs[task];
    if x.children == 0 then (s, ChildrenGone)
    else
      var child := FirstExited(s, x.kids);
      if child.None? then (s, MustWait)
      else if s.procs[child.value].original.None? then (s, NoOriginal)
      else (Buried(s, child.value), Collected(s.procs[child.value].original.value, s.procs[child.value].status))
  }

  function WaitStep<P, T>(s: State<P, T>, task: P, waiters: nat): (State<P, T>, Outcome<T>)
    requires task in s.procs
  {
    if s.procs[task].children == 0 then (s, NoChildren)
    else if s.procs[task].children <= waiters then (s, WaitFull)
    else ResumeStep(s, task)
  }

  /** Thread ids are handed out once. */
  ghost predicate New<P, T>(s: State<P, T>, t: T) {
    t !in s.owner && t !in s.gone && forall p :: p in s.procs ==> t !in s.procs[p].family
  }

  ghost predicate Unborn<P, T>(s: State<P, T>, birth: Birth<T>) {
    match birth
    case NoMemory => true
    case NoLock(t) => New(s, t)
    case Made(t) => New(s, t)
  }

  /** A process that has not exited has a thread to make the call. */
  ghost predicate CanCall<P, T>(s: State<P, T>, p: P) {
    p in s.procs && s.procs[p].life.Alive? && exists t :: t in s.owner && s.owner[t] == p && t !in s.gone
  }

  /** The operands are processes and threads that can make the call. */
  ghost predicate Legal<P, T>(s: State<P, T>, op: Op<P, T>) {
    s.init in s.procs &&
    match op
    case Fork(parent, child, _, birth) => CanCall(s, parent) && child !in s.procs && child !in s.buried && Unborn(s, birth)
    case ThreadFork(caller, birth) => CanCall(s, caller) && Unborn(s, birth)
    case SetStatus(setter, _) => CanCall(s, setter)
    case Vanish(self) => self in s.owner && self !in s.gone && s.owner[self] in s.procs
    case Wait(task, _) => CanCall(s, task)
    case Resume(woken) => CanCall(s, woken)
  }

  function Step<P, T>(s: State<P, T>, op: Op<P, T>): (State<P, T>, Outcome<T>)
    requires Legal(s, op)
  {
    match op
    case Fork(parent, child, copied, birth) => ForkStep(s, parent, child, copied, birth)
    case ThreadFork(caller, birth) => ThreadStep(s, caller, birth)
    case SetStatus(setter, status) => (StatusStep(s, setter, status), Done)
    case Vanish(self) => (VanishStep(s, self), Done)
    case Wait(task, waiters) => WaitStep(s, task, waiters)
    case Resume(woken) => ResumeStep(s, woken)
  }

  // ----- the invariant -----

  /** How many of the threads have not vanished. */
  function Live<T>(family: seq<T>, gone: set<T>): nat {
    if family == [] then 0 else Live(family[1..], gone) + if family[0] in gone then 0 else 1
  }

  /** The chain and the count of a process, and its own place in its parent's
      chain. */
  ghost predicate KinOk<P, T>(s: State<P, T>, p: P)
    requires p in s.procs && s.init in s.procs
  {
    var x := s.procs[p];
    && NoDuplicates(x.kids)
    && (if x.life.Alive? then x.children == |x.kids| else x.kids == [])
    && (forall q :: q in x.kids ==> q in s.procs && s.procs[q].parent == Some(p))
    && x.pid < s.nextPid
    && (x.parent.Some? ==> x.parent.value in s.procs && p in s.procs[x.parent.value].kids)
    && (x.parent.Some? ==> s.procs[x.parent.value].pid < x.pid && s.procs[s.init].pid < x.pid)
  }

  /** The threads of a process, and the count of those that have not vanished. */
  ghost predicate Counted<P, T>(s: State<P, T>, p: P)
    requires p in s.procs
  {
    var x := s.procs[p];
    && NoDuplicates(x.family)
    && (forall t :: t in x.family ==> t in s.owner && s.owner[t] == p)
    && x.active == Live(x.family, s.gone)
  }

  /** A process has exited exactly when all its threads have vanished, and knows its
      first thread. */
  ghost predicate ThreadsOk<P, T>(s: State<P, T>, p: P)
    requires p in s.procs
  {
    Counted(s, p) && (s.procs[p].life.Exited? <==> s.procs[p].active == 0) && s.procs[p].original.Some?
  }

  ghost predicate Inv<P, T>(s: State<P, T>) {
    && s.init in s.procs && s.procs[s.init].life.Alive?
    && (forall p :: p in s.procs ==> p !in s.buried)
    && (forall p :: p in s.procs ==> KinOk(s, p))
    && (forall p :: p in s.procs ==> ThreadsOk(s, p))
    && (forall t :: t in s.owner ==> s.owner[t] in s.procs && t in s.procs[s.owner[t]].family)
  }

  /** The books of a process, which may count threads that were never entered in the
      table and need not have any thread: but whoever has exited counts none. */
  ghost predicate Booked<P, T>(s: State<P, T>, p: P)
    requires p in s.procs
  {
    var x := s.procs[p];
    && NoDuplicates(x.family)
    && (forall t :: t in x.family && t in s.owner ==> s.owner[t] == p)
    && x.active == Live(x.family, s.gone)
    && (x.life.Exited? ==> x.active == 0)
  }

  // ----- birth keeps it -----

  /** A process with a thread is born at the front of its parent's chain. */
  function Born<P, T>(s: State<P, T>, parent: P, child: P, t: T): State<P, T>
    requires parent in s.procs
  {
    Staffed(Linked(s, parent, child), child, t)
  }

  lemma BornEffect<P, T>(s: State<P, T>, parent: P, child: P, t: T)
    requires parent in s.procs && child !in s.procs
    ensures var s', p := Born(s, parent, child, t), s.procs[parent];
      && s' == s.(procs := s'.procs, owner := s.owner[t := child], nextPid := s.nextPid + 1)
      && s'.procs.Keys == s.procs.Keys + {child}
      && s'.procs[child] == Process(s.nextPid, Alive, Some(parent), [], 0, [t], 1, Some(t), -1)
      && s'.procs[parent] == p.(kids := [child] + p.kids, children := p.children + 1)
      && forall q :: q in s.procs && q != parent ==> s'.procs[q] == s.procs[q]
  {
  }

  ghost predicate MayBear<P, T>(s: State<P, T>, parent: P, child: P, t: T) {
    && Inv(s) && parent in s.procs && s.procs[parent].life.Alive? && child !in s.procs && child !in s.buried
    && t !in s.owner && t !in s.gone
  }

  /** The family links of copy_process: the child is in front of its parent's chain. */
  lemma LinkedEffect<P, T>(s: State<P, T>, parent: P, child: P)
    requires parent in s.procs && child !in s.procs
    ensures var s', p := Linked(s, parent, child), s.procs[parent];
      && s' == s.(procs := s'.procs, nextPid := s.nextPid + 1)
      && s'.procs.Keys == s.procs.Keys + {child}
      && s'.procs[child] == Process(s.nextPid, Alive, Some(parent), [], 0, [], 0, None, -1)
      && s'.procs[parent] == p.(kids := [child] + p.kids, children := p.children + 1)
      && forall q :: q in s.procs && q != parent ==> s'.procs[q] == s.procs[q]
  {
  }

  /** A process whose own record, children and place have not changed is as good as
      before. */
  lemma KinKept<P, T>(s: State<P, T>, s': State<P, T>, q: P)
    requires s.init in s.procs && s'.init == s.init && s.init in s'.procs && s'.procs[s.init].pid == s.procs[s.init].pid
    requires q in s.procs && KinOk(s, q) && q in s'.procs && s.nextPid <= s'.nextPid
    requires var x, x' := s.procs[q], s'.procs[q];
      x'.pid == x.pid && x'.life == x.life && x'.parent == x.parent && x'.kids == x.kids && x'.children == x.children
    requires forall k :: k in s.procs[q].kids ==> k in s'.procs && s'.procs[k].parent == s.procs[k].parent
    requires var up := s.procs[q].parent;
      up.Some? ==> up.value in s'.procs && s'.procs[up.value].pid == s.procs[up.value].pid && q in s'.procs[up.value].kids
    ensures KinOk(s', q)
  {
    hide NoDuplicates;
  }

  lemma LinkedOthers<P, T>(s: State<P, T>, parent: P, child: P, q: P)
    requires Forest(s) && parent in s.procs && child !in s.procs && q in s.procs && q != parent
    ensures q in Linked(s, parent, child).procs && KinOk(Linked(s, parent, child), q)
  {
    hide Linked;
    LinkedEffect(s, parent, child);
    var s' := Linked(s, parent, child);
    assert KinOk(s, q);
    assert forall k :: k in s.procs[q].kids ==> k in s.procs && k in s'.procs && s'.procs[k].parent == s.procs[k].parent;
    assert forall k :: k in s.procs[parent].kids ==> k in s'.procs[parent].kids;
    hide Forest;
    KinKept(s, s', q);
  }

  lemma LinkedChild<P, T>(s: State<P, T>, parent: P, child: P)
    requires Forest(s) && parent in s.procs && child !in s.procs
    ensures child in Linked(s, parent, child).procs && KinOk(Linked(s, parent, child), child)
  {
    hide Linked;
    assert KinOk(s, parent) && KinOk(s, s.init);
    hide Forest;
    LinkedEffect(s, parent, child);
  }

  lemma LinkedParent<P, T>(s: State<P, T>, parent: P, child: P)
    requires Forest(s) && parent in s.procs && s.procs[parent].life.Alive? && child !in s.procs
    ensures parent in Linked(s, parent, child).procs && KinOk(Linked(s, parent, child), parent)
  {
    hide Linked;
    assert KinOk(s, parent);
    hide Forest;
    LinkedEffect(s, parent, child);
    assert child !in s.procs[parent].kids && parent !in s.procs[parent].kids by {
      assert s.procs[parent].parent != Some(parent);
    }
  }

  /** A new child keeps every chain in order. */
  lemma LinkedForest<P, T>(s: State<P, T>, parent: P, child: P)
    requires Forest(s) && parent in s.procs && s.procs[parent].life.Alive? && child !in s.procs
    ensures Forest(Linked(s, parent, child))
  {
    hide Linked;
    hide KinOk;
    LinkedEffect(s, parent, child);
    var s' := Linked(s, parent, child);
    forall q | q in s'.procs
      ensures KinOk(s', q)
    {
      if q == child {
        LinkedChild(s, parent, child);
      } else if q == parent {
        LinkedParent(s, parent, child);
      } else {
        LinkedOthers(s, parent, child, q);
      }
    }
  }

  lemma BornThreads<P, T>(s: State<P, T>, parent: P, child: P, t: T, q: P)
    requires MayBear(s, parent, child, t) && q in Born(s, parent, child, t).procs
    ensures ThreadsOk(Born(s, parent, child, t), q)
  {
    hide Born;
    hide KinOk;
    BornEffect(s, parent, child, t);
    if q == child {
      assert Live([t], s.gone) == 1;
    } else {
      assert ThreadsOk(s, q);
      hide Inv;
      hide Live;
    }
  }

  lemma BornInv<P, T>(s: State<P, T>, parent: P, child: P, t: T)
    requires MayBear(s, parent, child, t)
    ensures Inv(Born(s, parent, child, t))
  {
    hide KinOk;
    hide ThreadsOk;
    LinkedForest(s, parent, child);
    SameKinForest(Linked(s, parent, child), Born(s, parent, child, t));
    BornEffect(s, parent, child, t);
    var s' := Born(s, parent, child, t);
    hide Born;
    forall q | q in s'.procs
      ensures ThreadsOk(s', q)
    {
      BornThreads(s, parent, child, t, q);
    }
  }

  lemma StaffedInv<P, T>(s: State<P, T>, p: P, t: T)
    requires Inv(s) && p in s.procs && s.procs[p].life.Alive? && t !in s.owner && t !in s.gone
    ensures Inv(Staffed(s, p, t))
  {
    hide KinOk;
    hide ThreadsOk;
    var s' := Staffed(s, p, t);
    SameKinForest(s, s');
    forall q | q in s'.procs
      ensures ThreadsOk(s', q)
    {
      StaffedThreads(s, p, t, q);
    }
  }

  lemma LiveNewcomer<T>(family: seq<T>, gone: set<T>, t: T)
    requires t !in gone
    ensures Live([t] + family, gone) == Live(family, gone) + 1
  {
    assert ([t] + family)[1..] == family;
  }

  lemma StaffedThreads<P, T>(s: State<P, T>, p: P, t: T, q: P)
    requires Inv(s) && p in s.procs && s.procs[p].life.Alive? && t !in s.owner && t !in s.gone && q in s.procs
    ensures ThreadsOk(Staffed(s, p, t), q)
  {
    hide KinOk;
    assert ThreadsOk(s, q);
    hide Inv;
    hide Live;
    if q == p {
      assert t !in s.procs[p].family;
      LiveNewcomer(s.procs[p].family, s.gone, t);
    }
  }

  /** Nobody's kin has changed. */
  ghost predicate SameKin<P, T>(s: State<P, T>, s': State<P, T>) {
    && s'.init == s.init && s.nextPid == s'.nextPid
    && (forall q :: q in s'.procs ==> q in s.procs)
    && (forall q :: q in s.procs ==> q in s'.procs && SameRecord(s.procs[q], s'.procs[q]))
  }

  predicate SameRecord<P(==), T(==)>(x: Process<P, T>, x': Process<P, T>) {
    x'.pid == x.pid && x'.life == x.life && x'.parent == x.parent && x'.kids == x.kids && x'.children == x.children
  }

  lemma SameKinForest<P, T>(s: State<P, T>, s': State<P, T>)
    requires Forest(s) && SameKin(s, s')
    ensures Forest(s')
  {
    forall q | q in s'.procs
      ensures KinOk(s', q)
    {
      SameKinOk(s, s', q);
    }
    hide KinOk;
  }

  lemma SameKinOk<P, T>(s: State<P, T>, s': State<P, T>, q: P)
    requires Forest(s) && SameKin(s, s') && q in s'.procs
    ensures s'.init in s'.procs && KinOk(s', q)
  {
    assert KinOk(s, q);
    hide Forest;
    hide NoDuplicates;
  }

  lemma StatusInv<P, T>(s: State<P, T>, p: P, status: int)
    requires Inv(s) && p in s.procs
    ensures Inv(StatusStep(s, p, status))
  {
    hide Live;
    hide KinOk;
    var s' := StatusStep(s, p, status);
    SameKinForest(s, s');
    forall q | q in s'.procs
      ensures ThreadsOk(s', q)
    {
      assert ThreadsOk(s, q);
    }
  }

  // ----- adoption keeps it -----

  /** The chains alone are in order. */
  ghost predicate Forest<P, T>(s: State<P, T>) {
    s.init in s.procs && forall p :: p in s.procs ==> KinOk(s, p)
  }

  lemma InvForest<P, T>(s: State<P, T>)
    requires Inv(s)
    ensures Forest(s)
  {
  }

  lemma InitIsRoot<P, T>(s: State<P, T>)
    requires Forest(s)
    ensures s.procs[s.init].parent.None?
  {
    assert KinOk(s, s.init);
  }

  /** The exited process has no chain, init has it in front of its own, and its
      members have init as parent; nothing else changes. */
  lemma ExitEffect<P, T>(s: State<P, T>, p: P)
    requires Forest(s) && p in s.procs && p != s.init && s.procs[p].life.Alive?
    ensures var s', x, i := Exit(s, p), s.procs[p], s.procs[s.init];
      && s' == s.(procs := s'.procs) && s'.procs.Keys == s.procs.Keys
      && s'.procs[p] == x.(life := Exited, kids := [])
      && s'.procs[s.init] == i.(kids := x.kids + i.kids, children := i.children + x.children)
      && (forall q :: q in s.procs && q in x.kids && q != p && q != s.init ==> s'.procs[q] == s.procs[q].(parent := Some(s.init)))
      && (forall q :: q in s.procs && q !in x.kids && q != p && q != s.init ==> s'.procs[q] == s.procs[q])
    ensures p !in s.procs[p].kids && s.init !in s.procs[p].kids
  {
    assert KinOk(s, p);
    InitIsRoot(s);
    var x, i := s.procs[p], s.procs[s.init];
    assert x.kids == [] ==> x.kids + i.kids == i.kids;
    hide KinOk;
  }

  lemma ExitForestOther<P, T>(s: State<P, T>, p: P, q: P)
    requires Forest(s) && p in s.procs && p != s.init && s.procs[p].life.Alive? && q in s.procs && q != p && q != s.init
    ensures q in Exit(s, p).procs && KinOk(Exit(s, p), q)
  {
    hide Exit;
    hide NoDuplicates;
    ExitEffect(s, p);
    InitIsRoot(s);
    var s', x := Exit(s, p), s.procs[p];
    assert KinOk(s, q) && KinOk(s, s.init) && KinOk(s, p);
    assert forall k :: k in s.procs[q].kids ==> s.procs[k].parent == Some(q);
    assert forall k :: k in x.kids ==> s.procs[k].parent == Some(p) && k in s'.procs[s.init].kids;
    assert forall k :: k in s.procs[q].kids ==> k !in x.kids && k != s.init && s'.procs[k].parent == s.procs[k].parent;
    hide Forest;
    if q in x.kids {
    } else {
      assert s'.procs[q] == s.procs[q];
      KinKept(s, s', q);
    }
  }

  lemma ExitForestInit<P, T>(s: State<P, T>, p: P)
    requires Forest(s) && p in s.procs && p != s.init && s.procs[p].life.Alive? && s.procs[s.init].life.Alive?
    ensures KinOk(Exit(s, p), s.init)
  {
    ExitEffect(s, p);
    InitIsRoot(s);
    var s', x, i := Exit(s, p), s.procs[p], s.procs[s.init];
    hide Exit;
    assert KinOk(s, s.init) && KinOk(s, p);
    assert forall k :: k in x.kids ==> k !in i.kids;
    ConcatDistinct(x.kids, i.kids);
    hide Forest;
    forall k | k in x.kids + i.kids
      ensures k in s'.procs && s'.procs[k].parent == Some(s.init)
    {
      assert k in x.kids || k in i.kids;
    }
  }

  lemma ExitForestSelf<P, T>(s: State<P, T>, p: P)
    requires Forest(s) && p in s.procs && p != s.init && s.procs[p].life.Alive?
    ensures KinOk(Exit(s, p), p)
  {
    hide Exit;
    assert KinOk(s, p);
    hide Forest;
    ExitEffect(s, p);
    var s', x, i := Exit(s, p), s.procs[p], s.procs[s.init];
    assert forall k :: k in i.kids ==> k in s'.procs[s.init].kids;
    if x.parent.Some? && x.parent.value != s.init {
      var up := x.parent.value;
      assert s'.procs[up].kids == s.procs[up].kids && s'.procs[up].pid == s.procs[up].pid;
    }
  }

  lemma ExitForest<P, T>(s: State<P, T>, p: P)
    requires Forest(s) && p in s.procs && p != s.init && s.procs[p].life.Alive? && s.procs[s.init].life.Alive?
    ensures Forest(Exit(s, p))
  {
    hide KinOk;
    ExitEffect(s, p);
    var s' := Exit(s, p);
    hide Exit;
    forall q | q in s'.procs
      ensures KinOk(s', q)
    {
      if q == p {
        ExitForestSelf(s, p);
      } else if q == s.init {
        ExitForestInit(s, p);
      } else {
        ExitForestOther(s, p, q);
      }
    }
  }

  /** Init exits: its count doubles, and its children are in nobody's chain. */
  lemma InitExitEffect<P, T>(s: State<P, T>)
    requires Forest(s) && s.procs[s.init].life.Alive?
    ensures var s', i := Exit(s, s.init), s.procs[s.init];
      && s' == s.(procs := s.procs[s.init := i.(life := Exited, kids := [], children := 2 * i.children)])
  {
    assert KinOk(s, s.init);
    var i := s.procs[s.init];
    assert s.init !in i.kids by {
      InitIsRoot(s);
    }
    assert Reparented(s.procs, i.kids, s.init) == s.procs;
  }

  /** The exit of a process keeps every chain in order if and only if it is not init, or
      init has no children. */
  lemma ExitForestExact<P, T>(s: State<P, T>, p: P)
    requires Forest(s) && p in s.procs && s.procs[p].life.Alive? && s.procs[s.init].life.Alive?
    ensures Forest(Exit(s, p)) <==> p != s.init || s.procs[p].kids == []
  {
    hide Exit;
    if p != s.init {
      ExitForest(s, p);
    } else {
      InitExitEffect(s);
      InitExitForest(s, Exit(s, p));
    }
  }

  lemma InitExitForest<P, T>(s: State<P, T>, s': State<P, T>)
    requires Forest(s) && s.procs[s.init].life.Alive?
    requires var i := s.procs[s.init];
      s' == s.(procs := s.procs[s.init := i.(life := Exited, kids := [], children := 2 * i.children)])
    ensures Forest(s') <==> s.procs[s.init].kids == []
  {
    hide NoDuplicates;
    var kids := s.procs[s.init].kids;
    assert KinOk(s, s.init);
    if kids == [] {
      forall q | q in s'.procs
        ensures KinOk(s', q)
      {
        assert KinOk(s, q);
      }
    } else {
      assert kids[0] in kids && KinOk(s, kids[0]);
      InitIsRoot(s);
      assert !KinOk(s', kids[0]);
    }
  }

  // ----- the last thread out -----

  lemma {:induction false} LiveAfter<T>(family: seq<T>, gone: set<T>, t: T)
    requires NoDuplicates(family) && t !in gone
    ensures Live(family, gone + {t}) == Live(family, gone) - if t in family then 1 else 0
  {
    if family != [] {
      assert family == [family[0]] + family[1..];
      assert family[0] !in family[1..];
      LiveAfter(family[1..], gone, t);
    }
  }

  /** No thread is active exactly when all have vanished. */
  lemma {:induction false} LiveNone<T>(family: seq<T>, gone: set<T>)
    ensures Live(family, gone) == 0 <==> forall t :: t in family ==> t in gone
  {
    if family != [] {
      assert family == [family[0]] + family[1..];
      LiveNone(family[1..], gone);
    }
  }

  lemma WithdrawnCounted<P, T>(s: State<P, T>, t: T, q: P)
    requires Inv(s) && Legal(s, Vanish(t)) && q in s.procs
    ensures Counted(Withdrawn(s, t), q)
    ensures q == s.owner[t] ==> s.procs[q].active > 0
  {
    assert ThreadsOk(s, q);
    LiveAfter(s.procs[q].family, s.gone, t);
    assert t in s.procs[q].family <==> s.owner[t] == q;
    hide Inv;
    hide Live;
  }

  /** A process with a thread that has not vanished counts it, and has not exited. */
  lemma BookedActive<P, T>(s: State<P, T>, p: P, t: T)
    requires p in s.procs && Booked(s, p) && t in s.procs[p].family && t !in s.gone
    ensures s.procs[p].active > 0 && s.procs[p].life.Alive?
  {
    LiveNone(s.procs[p].family, s.gone);
  }

  lemma WithdrawnForest<P, T>(s: State<P, T>, t: T)
    requires Forest(s) && Legal(s, Vanish(t))
    ensures Forest(Withdrawn(s, t))
  {
    hide KinOk;
    SameKinForest(s, Withdrawn(s, t));
  }

  /** Threads that exit or stay do not change anyone's books. */
  lemma ThreadsKept<P, T>(s: State<P, T>, s': State<P, T>, q: P)
    requires q in s.procs && q in s'.procs && Counted(s, q) && s'.owner == s.owner && s'.gone == s.gone
    requires s'.procs[q].family == s.procs[q].family && s'.procs[q].active == s.procs[q].active
    requires (s'.procs[q].life.Exited? <==> s'.procs[q].active == 0) && s'.procs[q].original.Some?
    ensures ThreadsOk(s', q)
  {
  }

  lemma StaysInv<P, T>(s: State<P, T>, t: T)
    requires Inv(s) && Legal(s, Vanish(t)) && Withdrawn(s, t).procs[s.owner[t]].active > 0
    ensures Inv(Withdrawn(s, t))
  {
    hide KinOk;
    hide Counted;
    WithdrawnForest(s, t);
    var s' := Withdrawn(s, t);
    forall q | q in s'.procs
      ensures ThreadsOk(s', q)
    {
      WithdrawnCounted(s, t, q);
      assert ThreadsOk(s, q);
    }
  }

  lemma LeavesInv<P, T>(s: State<P, T>, t: T)
    requires Inv(s) && Legal(s, Vanish(t)) && Withdrawn(s, t).procs[s.owner[t]].active == 0 && s.owner[t] != s.init
    ensures Inv(Exit(Withdrawn(s, t), s.owner[t]))
  {
    hide KinOk;
    hide Counted;
    hide Exit;
    hide Live;
    var s1, p := Withdrawn(s, t), s.owner[t];
    assert ThreadsOk(s, p);
    WithdrawnCounted(s, t, p);
    WithdrawnForest(s, t);
    ExitForest(s1, p);
    ExitEffect(s1, p);
    var s' := Exit(s1, p);
    forall q | q in s'.procs
      ensures ThreadsOk(s', q) && s'.procs[q].family == s.procs[q].family
    {
      assert q in s.procs && ThreadsOk(s, q);
      WithdrawnCounted(s, t, q);
      ThreadsKept(s1, s', q);
    }
  }

  /** A vanishing thread keeps everything in order, unless it is the last of init. */
  lemma VanishExact<P, T>(s: State<P, T>, t: T)
    requires Inv(s) && Legal(s, Vanish(t))
    ensures Inv(VanishStep(s, t)) <==> !(s.owner[t] == s.init && s.procs[s.init].active == 1)
  {
    hide KinOk;
    hide Counted;
    var p := s.owner[t];
    WithdrawnCounted(s, t, p);
    if s.procs[p].active > 1 {
      StaysInv(s, t);
    } else if p != s.init {
      LeavesInv(s, t);
    }
  }

  // ----- collection keeps it -----

  ghost predicate LostChild<P, T>(p: Process<P, T>, p': Process<P, T>, c: P) {
    p.life.Alive? && c in p.kids && p.children > 0 && p' == p.(kids := Without(p.kids, c), children := p.children - 1)
  }

  /** The process is gone with its threads; its parent has one child less. */
  lemma BuriedEffect<P, T>(s: State<P, T>, c: P)
    requires Forest(s) && c in s.procs && s.procs[c].life.Exited?
    ensures var s', x := Buried(s, c), s.procs[c];
      && s' == s.(procs := s'.procs, owner := s'.owner, buried := s.buried + {c})
      && s'.procs.Keys == s.procs.Keys - {c}
      && s'.owner == s.owner - (set t | t in x.family)
      && (x.parent.Some? ==> x.parent.value in s'.procs && LostChild(s.procs[x.parent.value], s'.procs[x.parent.value], c))
      && forall q :: q in s'.procs && Some(q) != x.parent ==> s'.procs[q] == s.procs[q]
  {
    hide Without;
    assert KinOk(s, c);
    var x := s.procs[c];
    if x.parent.Some? {
      assert KinOk(s, x.parent.value);
    }
    hide Forest;
  }

  /** A parent whose chain lost `c`, in a state where nobody else changed. */
  lemma LostChildKin<P, T>(s: State<P, T>, s': State<P, T>, c: P, q: P)
    requires s.init in s.procs && q in s.procs && KinOk(s, q) && c != q && q !in s.procs[q].kids
    requires s'.init == s.init && s'.nextPid == s.nextPid && s'.procs.Keys == s.procs.Keys - {c} && s.init != c
    requires forall r :: r in s'.procs && r != q ==> s'.procs[r] == s.procs[r]
    requires LostChild(s.procs[q], s'.procs[q], c) && s.procs[q].parent != Some(c) && s.procs[q].parent != Some(q)
    ensures KinOk(s', q)
  {
    hide Without;
    WithoutMembers(s.procs[q].kids, c);
    hide NoDuplicates;
  }

  lemma BuriedParent<P, T>(s: State<P, T>, c: P, q: P)
    requires Forest(s) && c in s.procs && s.procs[c].life.Exited? && c != s.init && s.procs[c].parent == Some(q)
    ensures q in Buried(s, c).procs && KinOk(Buried(s, c), q)
  {
    hide Without;
    hide Buried;
    hide NoDuplicates;
    assert KinOk(s, c) && KinOk(s, q);
    assert q !in s.procs[q].kids && s.procs[q].parent != Some(c);
    hide Forest;
    BuriedEffect(s, c);
    LostChildKin(s, Buried(s, c), c, q);
  }

  lemma BuriedKin<P, T>(s: State<P, T>, c: P, q: P)
    requires Forest(s) && c in s.procs && s.procs[c].life.Exited? && c != s.init
    requires q in s.procs && q != c && s.procs[c].parent != Some(q)
    ensures q in Buried(s, c).procs && KinOk(Buried(s, c), q)
  {
    hide Without;
    BuriedEffect(s, c);
    var s', x := Buried(s, c), s.procs[c];
    hide Buried;
    assert KinOk(s, q) && KinOk(s, c);
    assert s.procs[q].parent != Some(c) && c !in s.procs[q].kids;
    var up := s.procs[q].parent;
    if up.Some? && up == x.parent {
      assert KinOk(s, up.value);
      WithoutMembers(s.procs[up.value].kids, c);
    }
    hide Forest;
    KinKept(s, s', q);
  }

  /** The burial of an exited process keeps every chain in order. */
  lemma BuriedForest<P, T>(s: State<P, T>, c: P)
    requires Forest(s) && c in s.procs && s.procs[c].life.Exited? && c != s.init
    ensures Forest(Buried(s, c))
  {
    hide KinOk;
    hide Buried;
    BuriedEffect(s, c);
    var s' := Buried(s, c);
    forall q | q in s'.procs
      ensures KinOk(s', q)
    {
      if s.procs[c].parent == Some(q) {
        BuriedParent(s, c, q);
      } else {
        BuriedKin(s, c, q);
      }
    }
  }

  lemma BuriedThreads<P, T>(s: State<P, T>, c: P, q: P)
    requires Inv(s) && c in s.procs && s.procs[c].life.Exited? && q in s.procs && q != c
    ensures q in Buried(s, c).procs && ThreadsOk(Buried(s, c), q) && Buried(s, c).procs[q].family == s.procs[q].family
  {
    hide Without;
    hide Live;
    hide Buried;
    hide KinOk;
    BuriedEffect(s, c);
    assert ThreadsOk(s, q) && ThreadsOk(s, c);
    assert forall t :: t in s.procs[q].family ==> t !in s.procs[c].family;
    hide Inv;
  }

  lemma BuriedInv<P, T>(s: State<P, T>, c: P)
    requires Inv(s) && c in s.procs && s.procs[c].life.Exited?
    ensures Inv(Buried(s, c))
  {
    hide KinOk;
    hide ThreadsOk;
    hide Without;
    BuriedEffect(s, c);
    var s' := Buried(s, c);
    hide Buried;
    BuriedForest(s, c);
    forall q | q in s'.procs
      ensures ThreadsOk(s', q) && s'.procs[q].family == s.procs[q].family
    {
      BuriedThreads(s, c, q);
    }
    forall t | t in s'.owner
      ensures s'.owner[t] in s'.procs && t in s'.procs[s'.owner[t]].family
    {
      assert t in s.owner && t !in s.procs[c].family;
    }
  }
}

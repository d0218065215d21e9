/** What runs of wait and vanish guarantee, and how a step that comes too late makes
    wait miss a child or collect one twice. */
module WaitRuns {
  import opened Collections
  import opened WaitProtocol
  import L = Lifecycle
  import LR = LifecycleRuns

  // ----- runs -----

  datatype Turn<P, T> = Turn(thread: T, op: Op<P, T>)

  function Boot<P(==), T(==)>(init: P, t: T): State<P, T> {
    State(LR.Boot(init, t), map[], map[])
  }

  lemma BootGood<P, T>(init: P, t: T)
    ensures Good(Boot(init, t))
  {
    LR.BootInv(init, t);
    hide L.Inv;
  }

  /** The state after the steps of a schedule; a step that is not possible is none. */
  ghost function Run<P, T>(s: State<P, T>, turns: seq<Turn<P, T>>): State<P, T> {
    if turns == [] then s
    else
      var before, turn := Run(s, turns[..|turns| - 1]), turns[|turns| - 1];
      if Legal(before, turn.thread, turn.op) then Step(before, turn.thread, turn.op).0 else before
  }

  ghost predicate InTime<P, T>(s: State<P, T>, turns: seq<Turn<P, T>>) {
    turns == [] ||
    (var before, turn := turns[..|turns| - 1], turns[|turns| - 1];
     && InTime(s, before)
     && (Legal(Run(s, before), turn.thread, turn.op) ==> Timely(Run(s, before), turn.thread, turn.op)))
  }

  lemma {:induction false} RunGood<P, T>(s: State<P, T>, turns: seq<Turn<P, T>>)
    requires Good(s) && InTime(s, turns)
    ensures Good(Run(s, turns))
  {
    hide Good;
    hide Step;
    hide Legal;
    hide Timely;
    if turns != [] {
      var before, turn := turns[..|turns| - 1], turns[|turns| - 1];
      RunGood(s, before);
      if Legal(Run(s, before), turn.thread, turn.op) {
        StepExact(Run(s, before), turn.thread, turn.op);
      }
    }
  }

  /** No wake-up is missed: once every thread of `p` in wait is asleep, no child of
      `p` has exited. */
  lemma NoneMissed<P, T>(s: State<P, T>, p: P, t: T)
    requires Good(s) && p in s.fam.procs && t in Waiters(s, p)
    requires forall u :: u in s.pc && u in s.fam.owner && s.fam.owner[u] == p && !At(s, u).Outside? && !At(s, u).Missed? ==> u in Waiters(s, p)
    ensures forall c :: !LR.Collectable(s.fam, p, c)
  {
    hide Inv;
    assert ListOk(s, p) by {
      Listed(s, p);
    }
    assert PromptAt(s, p);
    assert Awake(s, p) == {} by {
      assert forall u :: u in Waiters(s, p) ==> At(s, u).Asleep?;
    }
    assert Zombies(s.fam, p) == {};
    assert forall c :: LR.Collectable(s.fam, p, c) ==> c in Zombies(s.fam, p);
  }

  lemma Listed<P, T>(s: State<P, T>, p: P)
    requires Inv(s)
    ensures ListOk(s, p)
  {
    assert p in s.waiting ==> ListOk(s, p);
  }

  /** Uninterrupted, a look and what follows it are one round of the wait of
      `Lifecycle`. */
  lemma Together<P, T>(s: State<P, T>, t: T)
    requires Good(s) && Legal(s, t, Look)
    ensures var p, (s1, r1) := s.fam.owner[t], LookStep(s, t);
      var (f, r) := if At(s, t).Outside? then L.WaitStep(s.fam, p, |Waiters(s, p)|) else L.ResumeStep(s.fam, p);
      if !At(s1, t).Seen? then f == s.fam && r1 == (if r.MustWait? then Inside else Returned(r)) && (r.MustWait? <==> At(s1, t).Missed?)
      else
        CanRun(s1, t) &&
        var (s2, r2) := CheckStep(s1, t);
        if At(s2, t).Found? then CollectStep(s2, t).0.fam == f && CollectStep(s2, t).1 == Returned(r)
        else f == s.fam && r2 == Returned(r)
  {
    hide L.Buried;
    hide L.FirstExited;
    hide L.KinOk;
    hide L.ThreadsOk;
    var p := s.fam.owner[t];
    NoZombies(s.fam, p);
    RunnerAlive(s, t);
    LR.WaitExact(s.fam, p);
    hide Good;
  }

  // ----- steps that come too late -----

  /** Thread `u` is the last of process `c`, which is a child of `p`. */
  ghost predicate LastOfChild<P, T>(s: State<P, T>, u: T, c: P, p: P) {
    && Legal(s, u, Vanish) && s.fam.owner[u] == c && s.fam.procs[c].active == 1 && s.fam.procs[c].parent == Some(p)
  }

  /** The look of a thread whose process has children, none of them exited. */
  lemma MissesAll<P, T>(s: State<P, T>, t: T)
    requires Inv(s) && Legal(s, t, Look) && At(s, t).Outside? && Waiters(s, s.fam.owner[t]) == []
    requires Zombies(s.fam, s.fam.owner[t]) == {} && s.fam.procs[s.fam.owner[t]].kids != []
    ensures LookStep(s, t).0 == Goto(s, t, Missed)
  {
    hide L.FirstExited;
    NoZombies(s.fam, s.fam.owner[t]);
    RunnerAlive(s, t);
  }

  lemma ChildFacts<P, T>(f: L.State<P, T>, c: P, p: P)
    requires L.Inv(f) && c in f.procs && f.procs[c].parent == Some(p)
    ensures c != f.init && p != c && p in f.procs && f.init in f.procs
    ensures forall k :: k in f.procs[c].kids ==> k in f.procs && f.procs[k].parent == Some(c)
  {
    assert L.KinOk(f, c);
    L.InitIsRoot(f);
  }

  /** The exit of a child whose parent has nobody on its waiting list. */
  lemma ExitUnseen<P, T>(s: State<P, T>, u: T, c: P, p: P)
    requires Good(s) && LastOfChild(s, u, c, p) && Waiters(s, p) == []
    ensures var f := L.VanishStep(s.fam, u);
      && c != s.fam.init && p != c && VanishStep(s, u) == s.(fam := f)
      && LR.Collectable(f, p, c) && f.owner == s.fam.owner && f.gone == s.fam.gone + {u} && f.procs.Keys == s.fam.procs.Keys && f.init == s.fam.init
      && (Zombies(s.fam, c) == {} ==> Good(VanishStep(s, u)))
      && Awake(VanishStep(s, u), p) == Awake(s, p)
      && (forall q, x :: q != c ==>
            (LR.Collectable(f, q, x) <==>
              (x == c && q == p) || LR.Collectable(s.fam, q, x) || (q == s.fam.init && LR.Collectable(s.fam, c, x))))
  {
    hide L.Exit;
    hide L.Forest;
    hide L.Inv;
    hide Claims;
    ChildFacts(s.fam, c, p);
    LastOut(s, u);
    VanishStays(s, u);
    forall q, x | q != c
      ensures LR.Collectable(L.Exit(L.Withdrawn(s.fam, u), c), q, x) <==>
        (x == c && q == p) || LR.Collectable(s.fam, q, x) || (q == s.fam.init && LR.Collectable(s.fam, c, x))
    {
      ExitZombies(L.Withdrawn(s.fam, u), c, x, q);
    }
    LastExact(s, u);
    assert PromptAt(s, s.fam.init);
    L.ExitEffect(L.Withdrawn(s.fam, u), c);
    FamilyAwake(s, L.VanishStep(s.fam, u), p);
  }

  /** The look of a thread whose process has a running child and no exited one. */
  lemma LooksInVain<P, T>(s: State<P, T>, t: T, p: P, c: P, u: T)
    requires Good(s) && Legal(s, t, Look) && At(s, t).Outside? && s.fam.owner[t] == p && LastOfChild(s, u, c, p)
    requires Waiters(s, p) == [] && Zombies(s.fam, p) == {} && Awake(s, p) == {}
    ensures LookStep(s, t).0 == Goto(s, t, Missed)
    ensures Good(Goto(s, t, Missed)) && LastOfChild(Goto(s, t, Missed), u, c, p) && Awake(Goto(s, t, Missed), p) == {}
    ensures u != t
  {
    hide LookStep;
    hide L.Inv;
    hide Claims;
    hide Prompt;
    hide ListOk;
    LR.OneLiveParent(s.fam, c, p);
    NotOwnParent(s.fam, c);
    assert s.fam.procs[p].kids != [];
    MissesAll(s, t);
    LookGood(s, t);
    GotoInv(s, t, Missed);
    AwakeMoves(s, Goto(s, t, Missed), t, p);
  }

  /** A child exits between the look of its parent's thread and that thread's sleep:
      nobody is woken, and the thread sleeps although its child has exited. */
  lemma LostWakeUp<P, T>(s: State<P, T>, t: T, p: P, c: P, u: T)
    requires Good(s) && Legal(s, t, Look) && At(s, t).Outside? && s.fam.owner[t] == p && LastOfChild(s, u, c, p)
    requires Waiters(s, p) == [] && Zombies(s.fam, p) == {} && Awake(s, p) == {} && Zombies(s.fam, c) == {}
    ensures var s1 := LookStep(s, t).0;
      && Good(s1) && At(s1, t).Missed? && Legal(s1, u, Vanish)
      && var s2 := VanishStep(s1, u);
      && Good(s2) && Legal(s2, t, Doze) && !Timely(s2, t, Doze)
      && var s3 := DozeStep(s2, t);
      && Waiters(s3, p) == [t] && LR.Collectable(s3.fam, p, c) && s3.fam.gone == s.fam.gone + {u} && s3.fam.owner == s.fam.owner
  {
    hide Good;
    hide LookStep;
    hide VanishStep;
    hide L.VanishStep;
    LooksInVain(s, t, p, c, u);
    var s1 := Goto(s, t, Missed);
    ExitUnseen(s1, u, c, p);
    assert c in Zombies(VanishStep(s1, u).fam, p);
  }

  /** Nobody is in wait and no process has exited. */
  ghost predicate Calm<P, T>(s: State<P, T>) {
    s.waiting == map[] && s.pc == map[] && forall p :: p in s.fam.procs ==> s.fam.procs[p].life.Alive?
  }

  predicate SameThreads<P(==), T(==)>(x: L.Process<P, T>, x': L.Process<P, T>) {
    x'.parent == x.parent && x'.active == x.active && x'.family == x.family
  }

  function ForkOp<P, T>(p: P, c: P, u: T): Op<P, T> {
    Other(L.Fork(p, c, true, L.Made(u)))
  }

  /** The only thread `t` of a process forks a child `c` with thread `u`. */
  lemma Forked<P, T>(s: State<P, T>, t: T, c: P, u: T)
    requires Good(s) && Calm(s) && CanRun(s, t) && s.fam.procs[s.fam.owner[t]].active == 1
    requires c !in s.fam.procs && c !in s.fam.buried && L.New(s.fam, u)
    ensures var op := ForkOp(s.fam.owner[t], c, u);
      && Legal(s, t, op)
      && var s' := Step(s, t, op).0;
      && Good(s') && Calm(s') && LastOfChild(s', u, c, s.fam.owner[t])
      && s'.fam.owner == s.fam.owner[u := c] && s'.fam.gone == s.fam.gone && s'.fam.init == s.fam.init && s'.fam.buried == s.fam.buried
      && s'.fam.procs.Keys == s.fam.procs.Keys + {c}
      && s'.fam.procs[c].family == [u] && forall q :: q in s.fam.procs ==> SameThreads(s.fam.procs[q], s'.fam.procs[q])
  {
    hide L.Inv;
    var p := s.fam.owner[t];
    var call := L.Fork(p, c, true, L.Made(u));
    RunnerAlive(s, t);
    assert L.CanCall(s.fam, p);
    OtherExact(s, t, call);
    L.BornEffect(s.fam, p, c, u);
    hide Good;
  }

  /** From boot: init forks a child and looks for it in vain, the child exits, init's
      thread goes to sleep.  The child has exited, and no thread can run. */
  lemma LostWakeUpReachable<P, T>(init: P, t: T, c: P, u: T)
    requires c != init && t != u
    ensures Legal(Boot(init, t), t, ForkOp(init, c, u))
    ensures var s := Step(Boot(init, t), t, ForkOp(init, c, u)).0;
      && Legal(s, t, Look)
      && var s1 := LookStep(s, t).0;
      && Legal(s1, u, Vanish)
      && var s2 := VanishStep(s1, u);
      && Legal(s2, t, Doze)
      && var s3 := DozeStep(s2, t);
      && LR.Collectable(s3.fam, init, c) && forall x :: !CanRun(s3, x)
  {
    hide Good;
    hide LookStep;
    hide VanishStep;
    BootGood(init, t);
    Forked(Boot(init, t), t, c, u);
    hide Step;
    var s := Step(Boot(init, t), t, ForkOp(init, c, u)).0;
    assert Awake(s, init) == {} && Zombies(s.fam, init) == {} && Zombies(s.fam, c) == {};
    LostWakeUp(s, t, init, c, u);
  }

  /** Init adopts an exited child while its threads sleep: nobody is woken for it. */
  lemma AdoptionMissed<P, T>(s: State<P, T>, v: T, q: P, c: P)
    requires Good(s) && Legal(s, v, Vanish) && s.fam.owner[v] == q && s.fam.procs[q].active == 1 && q != s.fam.init
    requires s.fam.procs[q].parent != Some(s.fam.init) && LR.Collectable(s.fam, q, c)
    requires Waiters(s, s.fam.init) != [] && Awake(s, s.fam.init) == {}
    ensures !Timely(s, v, Vanish)
    ensures Waiters(VanishStep(s, v), s.fam.init) == Waiters(s, s.fam.init) && LR.Collectable(VanishStep(s, v).fam, s.fam.init, c)
  {
    hide L.Inv;
    hide L.Exit;
    hide L.Forest;
    hide Told;
    hide L.VanishStep;
    LastOut(s, v);
    ExitZombies(L.Withdrawn(s.fam, v), q, c, s.fam.init);
    assert c in Zombies(s.fam, q);
  }

  /** One more step of a run. */
  lemma Extend<P, T>(s: State<P, T>, turns: seq<Turn<P, T>>, t: T, op: Op<P, T>)
    requires InTime(s, turns) && Good(Run(s, turns)) && Legal(Run(s, turns), t, op) && Good(Step(Run(s, turns), t, op).0)
    ensures InTime(s, turns + [Turn(t, op)]) && Run(s, turns + [Turn(t, op)]) == Step(Run(s, turns), t, op).0
  {
    hide Good;
    hide Step;
    hide Legal;
    hide Timely;
    var longer := turns + [Turn(t, op)];
    assert longer[..|longer| - 1] == turns;
    StepExact(Run(s, turns), t, op);
  }

  /** The exit of a childless process changes nobody else's threads and parent. */
  lemma ExitKeeps<P, T>(s: State<P, T>, u: T, c: P, p: P, q: P)
    requires Good(s) && LastOfChild(s, u, c, p) && q in s.fam.procs && q != c && s.fam.procs[q].parent != Some(c)
    ensures q in L.VanishStep(s.fam, u).procs && SameThreads(s.fam.procs[q], L.VanishStep(s.fam, u).procs[q])
  {
    hide L.Exit;
    hide L.Forest;
    hide L.Inv;
    hide Claims;
    hide Prompt;
    ChildFacts(s.fam, c, p);
    LastOut(s, u);
    L.ExitEffect(L.Withdrawn(s.fam, u), c);
  }

  /** Thread `t` is the only one process `p` has had. */
  ghost predicate Sole<P, T>(s: State<P, T>, t: T, p: P, up: Option<P>) {
    && p in s.fam.procs && s.fam.procs[p].active == 1 && s.fam.procs[p].family == [t] && s.fam.procs[p].parent == up
    && t in s.fam.owner && s.fam.owner[t] == p && t !in s.fam.gone
  }

  /** Nobody has been buried, and these are all the processes. */
  ghost predicate Only<P, T>(s: State<P, T>, ps: set<P>) {
    Good(s) && Calm(s) && s.fam.procs.Keys == ps && s.fam.buried == {} && s.fam.gone == {}
  }

  lemma SoleLast<P, T>(s: State<P, T>, t: T, p: P, up: P)
    requires Good(s) && Calm(s) && Sole(s, t, p, Some(up))
    ensures LastOfChild(s, t, p, up)
  {
  }

  lemma SoleForks<P, T>(s: State<P, T>, ps: set<P>, t: T, p: P, up: Option<P>, c: P, u: T)
    requires Only(s, ps) && Sole(s, t, p, up) && c !in ps && L.New(s.fam, u)
    ensures Legal(s, t, ForkOp(p, c, u))
    ensures var s' := Step(s, t, ForkOp(p, c, u)).0;
      && Only(s', ps + {c}) && s'.fam.init == s.fam.init && Sole(s', u, c, Some(p))
      && (forall x, q, r :: Sole(s, x, q, r) ==> Sole(s', x, q, r))
      && (forall x :: L.New(s.fam, x) && x != u ==> L.New(s'.fam, x))
  {
    assert s.fam.init in s.fam.procs;
    hide Good;
    hide Step;
    hide L.New;
    Forked(s, t, c, u);
    SoleKept(s, Step(s, t, ForkOp(p, c, u)).0, c, u);
  }

  lemma SoleKept<P, T>(s: State<P, T>, s': State<P, T>, c: P, u: T)
    requires L.New(s.fam, u) && s'.fam.owner == s.fam.owner[u := c] && s'.fam.gone == s.fam.gone
    requires s'.fam.procs.Keys == s.fam.procs.Keys + {c} && s'.fam.procs[c].family == [u] && c !in s.fam.procs
    requires forall q :: q in s.fam.procs ==> SameThreads(s.fam.procs[q], s'.fam.procs[q])
    ensures forall x, q, r :: Sole(s, x, q, r) ==> Sole(s', x, q, r)
    ensures forall x :: L.New(s.fam, x) && x != u ==> L.New(s'.fam, x)
  {
  }

  lemma BootSole<P, T>(init: P, t: T)
    ensures var s := Boot(init, t);
      Only(s, {init}) && s.fam.init == init && Sole(s, t, init, None) && forall x :: x != t ==> L.New(s.fam, x)
  {
    BootGood(init, t);
    hide Good;
  }

  lemma OnlyGood<P, T>(s: State<P, T>, ps: set<P>)
    requires Only(s, ps)
    ensures Good(s)
  {
  }

  /** From boot the first thread of each process forks the next: init, `a`, `b`, `c`. */
  lemma LineForked<P, T>(init: P, t: T, a: P, u: T, b: P, v: T, c: P, w: T) returns (turns: seq<Turn<P, T>>)
    requires a != init && b !in {init, a} && c !in {init, a, b} && u != t && v !in {t, u} && w !in {t, u, v}
    ensures var s := Run(Boot(init, t), turns);
      && InTime(Boot(init, t), turns) && Only(s, {init, a, b, c}) && s.fam.init == init
      && Sole(s, t, init, None) && Sole(s, u, a, Some(init)) && Sole(s, v, b, Some(a)) && Sole(s, w, c, Some(b))
  {
    hide Good;
    hide Boot;
    hide Sole;
    hide Only;
    hide L.New;
    hide Legal;
    var s := Boot(init, t);
    BootSole(init, t);
    OnlyGood(s, {init});
    NoTurns(s);
    hide Step;
    hide InTime;
    hide Run;
    SoleForks(s, {init}, t, init, None, a, u);
    OnlyGood(Step(s, t, ForkOp(init, a, u)).0, {init} + {a});
    Extend(s, [], t, ForkOp(init, a, u));
    var one := [] + [Turn(t, ForkOp(init, a, u))];
    SoleForks(Run(s, one), {init} + {a}, u, a, Some(init), b, v);
    OnlyGood(Step(Run(s, one), u, ForkOp(a, b, v)).0, {init} + {a} + {b});
    Extend(s, one, u, ForkOp(a, b, v));
    var two := one + [Turn(u, ForkOp(a, b, v))];
    SoleForks(Run(s, two), {init} + {a} + {b}, v, b, Some(a), c, w);
    OnlyGood(Step(Run(s, two), v, ForkOp(b, c, w)).0, {init} + {a} + {b} + {c});
    Extend(s, two, v, ForkOp(b, c, w));
    turns := two + [Turn(v, ForkOp(b, c, w))];
    assert {init} + {a} + {b} + {c} == {init, a, b, c};
  }

  lemma NoTurns<P, T>(s: State<P, T>)
    ensures InTime(s, []) && Run(s, []) == s
  {
  }

  /** In a line of four the last process exits, and init's thread goes to sleep in
      wait. */
  lemma InitSleeps<P, T>(s: State<P, T>, init: P, t: T, a: P, u: T, b: P, v: T, c: P, w: T)
    requires a != init && b !in {init, a} && c !in {init, a, b} && u != t && v !in {t, u} && w !in {t, u, v}
    requires Only(s, {init, a, b, c}) && s.fam.init == init
    requires Sole(s, t, init, None) && Sole(s, u, a, Some(init)) && Sole(s, v, b, Some(a)) && Sole(s, w, c, Some(b))
    ensures Legal(s, w, Vanish)
    ensures var s1 := VanishStep(s, w);
      && Good(s1) && Legal(s1, t, Look)
      && var s2 := LookStep(s1, t).0;
      && Good(s2) && Legal(s2, t, Doze)
      && var s3 := DozeStep(s2, t);
      && Good(s3) && Waiters(s3, init) == [t] && Awake(s3, init) == {}
      && s3.fam.init == init && Legal(s3, v, Vanish) && s3.fam.owner[v] == b && SameThreads(s.fam.procs[b], s3.fam.procs[b])
      && LR.Collectable(s3.fam, b, c)
  {
    hide Good;
    hide LookStep;
    hide VanishStep;
    hide L.VanishStep;
    SoleLast(s, w, c, b);
    ExitUnseen(s, w, c, b);
    assert Zombies(s.fam, c) == {};
    ExitKeeps(s, w, c, b, a);
    ExitKeeps(s, w, c, b, b);
    var s1 := VanishStep(s, w);
    assert LastOfChild(s1, u, a, init);
    assert Zombies(s1.fam, init) == {} && Awake(s1, init) == {};
    LooksInVain(s1, t, init, a, u);
    var s2 := Goto(s1, t, Missed);
    DozeExact(s2, t);
    DozeAwake(s2, t);
  }

  lemma DozeAwake<P, T>(s: State<P, T>, t: T)
    requires Good(s) && Legal(s, t, Doze)
    ensures |Awake(DozeStep(s, t), s.fam.owner[t])| == |Awake(s, s.fam.owner[t])|
  {
    hide L.Inv;
    DozeInv(s, t);
    AwakeMoves(s, DozeStep(s, t), t, s.fam.owner[t]);
  }

  /** From boot, with every step in time up to the last: init adopts an exited process
      while its thread sleeps, and the thread sleeps on. */
  lemma AdoptionReachable<P, T>(init: P, t: T, a: P, u: T, b: P, v: T, c: P, w: T) returns (turns: seq<Turn<P, T>>)
    requires a != init && b !in {init, a} && c !in {init, a, b} && u != t && v !in {t, u} && w !in {t, u, v}
    ensures InTime(Boot(init, t), turns) && Legal(Run(Boot(init, t), turns), v, Vanish)
    ensures var s := VanishStep(Run(Boot(init, t), turns), v);
      Waiters(s, init) == [t] && LR.Collectable(s.fam, init, c)
  {
    hide Good;
    hide InTime;
    hide Run;
    hide Boot;
    hide LookStep;
    hide VanishStep;
    hide DozeStep;
    hide Sole;
    hide Awake;
    var first := LineForked(init, t, a, u, b, v, c, w);
    var s0 := Boot(init, t);
    var s := Run(s0, first);
    InitSleeps(s, init, t, a, u, b, v, c, w);
    Extend(s0, first, w, Vanish);
    var second := first + [Turn(w, Vanish)];
    Extend(s0, second, t, Look);
    var third := second + [Turn(t, Look)];
    Extend(s0, third, t, Doze);
    turns := third + [Turn(t, Doze)];
    assert s.fam.procs[b].parent == Some(a) && s.fam.procs[b].active == 1 by {
      SoleFacts(s, v, b, Some(a));
    }
    AdoptionMissed(Run(s0, turns), v, b, c);
  }

  lemma SoleFacts<P, T>(s: State<P, T>, t: T, p: P, up: Option<P>)
    requires Sole(s, t, p, up)
    ensures p in s.fam.procs && s.fam.procs[p].active == 1 && s.fam.procs[p].parent == up
  {
  }

  // ----- two threads see one child -----

  /** Threads `t` and `u` of `p` have both seen the exited child `c`, and nobody is past
      the second check with it. */
  ghost predicate BothSaw<P, T>(s: State<P, T>, t: T, u: T, p: P, c: P) {
    && Good(s) && CanRun(s, t) && CanRun(s, u) && t != u && s.fam.owner[t] == p && s.fam.owner[u] == p
    && At(s, t) == Seen(Some(c)) && At(s, u) == Seen(Some(c)) && LR.Collectable(s.fam, p, c)
    && forall x :: x in s.pc ==> At(s, x) != Found(Some(c))
  }

  lemma Sees<P, T>(s: State<P, T>, t: T, c: P)
    requires Legal(s, t, Look) && At(s, t).Outside?
    requires var x := s.fam.procs[s.fam.owner[t]];
      L.FirstExited(s.fam, x.kids) == Some(c) && |Waiters(s, s.fam.owner[t])| < x.children
    ensures LookStep(s, t).0 == Goto(s, t, Seen(Some(c)))
  {
  }

  lemma BothSee<P, T>(s: State<P, T>, t: T, u: T, p: P, c: P)
    requires Good(s) && Legal(s, t, Look) && Legal(s, u, Look) && t != u && At(s, t).Outside? && At(s, u).Outside?
    requires s.fam.owner[t] == p && s.fam.owner[u] == p && L.FirstExited(s.fam, s.fam.procs[p].kids) == Some(c)
    requires |Waiters(s, p)| < s.fam.procs[p].children && forall x :: x in s.pc ==> At(s, x) != Found(Some(c))
    ensures var s1 := LookStep(s, t).0;
      Good(s1) && Legal(s1, u, Look) && BothSaw(LookStep(s1, u).0, t, u, p, c)
  {
    hide L.FirstExited;
    hide LookStep;
    hide L.Inv;
    hide Claims;
    hide Prompt;
    Sees(s, t, c);
    LookGood(s, t);
    var s1 := Goto(s, t, Seen(Some(c)));
    Sees(s1, u, c);
    LookGood(s1, u);
    var s2 := Goto(s1, u, Seen(Some(c)));
    assert forall x :: x in s2.pc ==> x == t || x == u || (x in s.pc && At(s2, x) == At(s, x));
    ChildOf(s.fam, p, c);
  }

  /** If both pass the second check, the second to collect the child uses what the first
      has freed. */
  lemma CollectedTwice<P, T>(s: State<P, T>, t: T, u: T, p: P, c: P)
    requires BothSaw(s, t, u, p, c)
    ensures var s1 := CheckStep(s, t).0;
      && Good(s1) && Legal(s1, u, Check) && !Timely(s1, u, Check)
      && var s2 := CheckStep(s1, u).0;
      && Legal(s2, t, Collect)
      && var (s3, r) := CollectStep(s2, t);
      && r.Returned? && r.result.Collected? && Legal(s3, u, Collect) && CollectStep(s3, u).1 == UseAfterFree
  {
    hide L.Inv;
    hide CollectStep;
    HasChild(s.fam, p, c);
    CheckExact(s, t);
    hide Good;
    var s1 := Goto(s, t, Found(Some(c)));
    assert CheckStep(s, t).0 == s1;
    var s2 := Goto(s1, u, Found(Some(c)));
    assert t in s1.pc && At(s1, t) == Found(Some(c)) && At(s2, t) == Found(Some(c));
    assert L.Inv(s.fam) by {
      GoodFamily(s);
    }
    FreedTwice(s2, t, u, p, c);
  }

  lemma GoodFamily<P, T>(s: State<P, T>)
    requires Good(s)
    ensures L.Inv(s.fam)
  {
  }

  lemma HasChild<P, T>(f: L.State<P, T>, p: P, c: P)
    requires L.Inv(f) && p in f.procs && LR.Collectable(f, p, c)
    ensures c in f.procs[p].kids && f.procs[p].children == |f.procs[p].kids| > 0
  {
    LR.OneLiveParent(f, c, p);
  }

  /** A thread interrupted before the second check, while another collects the child: it
      is sent away if that was the only child, and uses what has been freed if not. */
  lemma SeenAndGone<P, T>(s: State<P, T>, t: T, u: T, p: P, c: P)
    requires BothSaw(s, t, u, p, c)
    ensures var s1 := CheckStep(s, u).0;
      && Good(s1) && Legal(s1, u, Collect)
      && var s2 := CollectStep(s1, u).0;
      && Good(s2) && Legal(s2, t, Check)
      && (Timely(s2, t, Check) <==> s.fam.procs[p].children == 1)
      && var (s3, r) := CheckStep(s2, t);
      && if s.fam.procs[p].children == 1 then r == Returned(L.ChildrenGone)
         else At(s3, t).Found? && CollectStep(s3, t).1 == UseAfterFree
  {
    hide L.Inv;
    hide L.Buried;
    GoodFamily(s);
    HasChild(s.fam, p, c);
    CheckExact(s, u);
    var s1 := Goto(s, u, Found(Some(c)));
    assert CheckStep(s, u).0 == s1;
    CollectGood(s1, u);
    hide Good;
    Survives(s.fam, c, t);
    OneLess(s.fam, p, c);
  }

  lemma OneLess<P, T>(f: L.State<P, T>, p: P, c: P)
    requires L.Inv(f) && p in f.procs && LR.Collectable(f, p, c)
    ensures p in L.Buried(f, c).procs && L.Buried(f, c).procs[p].children == f.procs[p].children - 1
  {
    hide L.Buried;
    L.BuriedEffect(f, c);
  }

  lemma ChildOf<P, T>(f: L.State<P, T>, p: P, c: P)
    requires L.Inv(f) && p in f.procs && L.FirstExited(f, f.procs[p].kids) == Some(c)
    ensures LR.Collectable(f, p, c)
  {
    assert L.KinOk(f, p);
  }

  lemma FreedTwice<P, T>(s: State<P, T>, t: T, u: T, p: P, c: P)
    requires L.Inv(s.fam) && CanRun(s, t) && CanRun(s, u) && t != u && At(s, t) == Found(Some(c)) && At(s, u) == Found(Some(c))
    requires s.fam.owner[t] == p && s.fam.owner[u] == p && LR.Collectable(s.fam, p, c)
    ensures var (s', r) := CollectStep(s, t);
      && r.Returned? && r.result.Collected? && Legal(s', u, Collect) && CollectStep(s', u).1 == UseAfterFree
  {
    hide L.Buried;
    hide L.Inv;
    Survives(s.fam, c, u);
  }

  /** A thread that has not vanished is still there after the burial of `c`. */
  lemma Survives<P, T>(f: L.State<P, T>, c: P, u: T)
    requires L.Inv(f) && c in f.procs && f.procs[c].life.Exited? && f.procs[c].parent.Some?
    requires u in f.owner && u !in f.gone
    ensures var f' := L.Buried(f, c);
      && f.procs[c].original.Some? && c !in f'.procs && f'.init in f'.procs
      && u in f'.owner && f'.owner[u] == f.owner[u] && u !in f'.gone && f'.owner[u] in f'.procs
  {
    hide L.Buried;
    L.BuriedEffect(f, c);
    LR.ExitedExact(f, c);
    L.InitIsRoot(f);
    assert L.KinOk(f, c) && L.ThreadsOk(f, c);
  }

  /** A process whose thread `t` has a child `c` gets a second thread `v`, and the child
      exits. */
  lemma SecondThread<P, T>(s: State<P, T>, t: T, p: P, c: P, u: T, v: T)
    requires Good(s) && Calm(s) && CanRun(s, t) && s.fam.owner[t] == p && LastOfChild(s, u, c, p) && L.New(s.fam, v)
    ensures var op := Other(L.ThreadFork(p, L.Made(v)));
      && Legal(s, t, op)
      && var s' := Step(s, t, op).0;
      && Good(s') && Calm(s') && LastOfChild(s', u, c, p) && CanRun(s', t) && CanRun(s', v)
      && s'.fam.owner == s.fam.owner[v := p] && s'.fam.gone == s.fam.gone
  {
    hide L.Inv;
    var call := L.ThreadFork(p, L.Made(v));
    NotOwnParent(s.fam, c);
    RunnerAlive(s, t);
    assert L.CanCall(s.fam, p);
    OtherExact(s, t, call);
    hide Good;
  }

  lemma OnlyChildSeen<P, T>(s: State<P, T>, t: T, p: P, c: P)
    requires Good(s) && s.waiting == map[] && CanRun(s, t) && s.fam.owner[t] == p
    requires forall x :: LR.Collectable(s.fam, p, x) <==> x == c
    ensures L.FirstExited(s.fam, s.fam.procs[p].kids) == Some(c) && |Waiters(s, p)| < s.fam.procs[p].children
  {
    hide L.Inv;
    hide L.FirstExited;
    NoZombies(s.fam, p);
    RunnerAlive(s, t);
    assert LR.Collectable(s.fam, p, c);
    assert c in Zombies(s.fam, p);
    ChildOf(s.fam, p, L.FirstExited(s.fam, s.fam.procs[p].kids).value);
  }

  /** From boot, with every step in time: two threads of init have seen its one exited
      child. */
  lemma BothSawReachable<P, T>(init: P, t: T, c: P, u: T, v: T) returns (turns: seq<Turn<P, T>>)
    requires c != init && u != t && v !in {t, u}
    ensures InTime(Boot(init, t), turns) && BothSaw(Run(Boot(init, t), turns), t, v, init, c)
  {
    hide Good;
    hide LookStep;
    hide VanishStep;
    hide L.VanishStep;
    hide InTime;
    var s0, fork, more := Boot(init, t), ForkOp(init, c, u), Other(L.ThreadFork(init, L.Made(v)));
    BootGood(init, t);
    NoTurns(s0);
    Forked(s0, t, c, u);
    hide Run;
    hide Step;
    Extend(s0, [], t, fork);
    var one := [] + [Turn(t, fork)];
    SecondThread(Run(s0, one), t, init, c, u, v);
    Extend(s0, one, t, more);
    var two := one + [Turn(t, more)];
    var s2 := Run(s0, two);
    ExitUnseen(s2, u, c, init);
    assert Zombies(s2.fam, c) == {};
    StepIsVanish(s2, u);
    Extend(s0, two, u, Vanish);
    var three := two + [Turn(u, Vanish)];
    var s := Run(s0, three);
    assert forall x :: LR.Collectable(s.fam, init, x) <==> x == c;
    OnlyChildSeen(s, t, init, c);
    turns := TwoLooks(s0, three, t, v, init, c);
  }

  /** Both threads look. */
  lemma TwoLooks<P, T>(s0: State<P, T>, before: seq<Turn<P, T>>, t: T, v: T, p: P, c: P) returns (turns: seq<Turn<P, T>>)
    requires InTime(s0, before) && Good(Run(s0, before)) && t != v
    requires var s := Run(s0, before);
      && Legal(s, t, Look) && Legal(s, v, Look) && s.pc == map[] && s.fam.owner[t] == p && s.fam.owner[v] == p
      && L.FirstExited(s.fam, s.fam.procs[p].kids) == Some(c) && |Waiters(s, p)| < s.fam.procs[p].children
    ensures InTime(s0, turns) && BothSaw(Run(s0, turns), t, v, p, c)
  {
    hide Good;
    hide InTime;
    hide Run;
    hide LookStep;
    hide L.FirstExited;
    var s := Run(s0, before);
    BothSee(s, t, v, p, c);
    Extend(s0, before, t, Look);
    var one := before + [Turn(t, Look)];
    assert Good(LookStep(LookStep(s, t).0, v).0);
    Extend(s0, one, v, Look);
    turns := one + [Turn(v, Look)];
  }

  lemma StepIsVanish<P, T>(s: State<P, T>, t: T)
    requires Legal(s, t, Vanish)
    ensures Step(s, t, Vanish).0 == VanishStep(s, t)
  {
    hide VanishStep;
  }

  // ----- how long a missed wake-up lasts -----

  /** The step is the exit of a child of `p`. */
  predicate ChildExits<P, T>(s: State<P, T>, t: T, op: Op<P, T>, p: P)
    requires CanRun(s, t)
  {
    op.Vanish? && Told(s, t) == Some(p)
  }

  ghost predicate NoChildExits<P, T>(s: State<P, T>, turns: seq<Turn<P, T>>, p: P) {
    turns == [] ||
    (var before, turn := turns[..|turns| - 1], turns[|turns| - 1];
     && NoChildExits(s, before, p)
     && (Legal(Run(s, before), turn.thread, turn.op) ==> !ChildExits(Run(s, before), turn.thread, turn.op, p)))
  }

  lemma WaiterStep<P, T>(s: State<P, T>, t: T, op: Op<P, T>, w: T, p: P)
    requires Legal(s, t, op) && w in Waiters(s, p) && !ChildExits(s, t, op, p)
    ensures w in Waiters(Step(s, t, op).0, p)
  {
    hide Told;
    hide L.VanishStep;
    hide L.Buried;
    hide L.FirstExited;
    hide L.Step;
  }

  /** A sleeper in wait sleeps until another child of its process exits, whether or not
      a child has exited already. */
  lemma {:induction false} SleepsOn<P, T>(s: State<P, T>, turns: seq<Turn<P, T>>, w: T, p: P)
    requires w in Waiters(s, p) && NoChildExits(s, turns, p)
    ensures w in Waiters(Run(s, turns), p)
  {
    hide Step;
    hide Legal;
    hide ChildExits;
    if turns != [] {
      var before, turn := turns[..|turns| - 1], turns[|turns| - 1];
      SleepsOn(s, before, w, p);
      if Legal(Run(s, before), turn.thread, turn.op) {
        WaiterStep(Run(s, before), turn.thread, turn.op, w, p);
      }
    }
  }

  // ----- first come, first woken -----

  /** Thread `t` of `p` goes to sleep in wait. */
  ghost function Dozes<P, T>(s: State<P, T>, turn: Turn<P, T>, p: P): seq<T> {
    if Legal(s, turn.thread, turn.op) && turn.op.Doze? && s.fam.owner[turn.thread] == p then [turn.thread] else []
  }

  /** The exit of a child of `p` wakes the first of its waiters. */
  ghost function Rouses<P, T>(s: State<P, T>, turn: Turn<P, T>, p: P): seq<T> {
    if Legal(s, turn.thread, turn.op) && ChildExits(s, turn.thread, turn.op, p) && Waiters(s, p) != []
    then [Waiters(s, p)[0]] else []
  }

  /** The threads of `p` that go to sleep in wait along the run, in order. */
  ghost function Dozed<P, T>(s: State<P, T>, turns: seq<Turn<P, T>>, p: P): seq<T> {
    if turns == [] then []
    else Dozed(s, turns[..|turns| - 1], p) + Dozes(Run(s, turns[..|turns| - 1]), turns[|turns| - 1], p)
  }

  /** The threads of `p` that are woken along the run, in order. */
  ghost function Roused<P, T>(s: State<P, T>, turns: seq<Turn<P, T>>, p: P): seq<T> {
    if turns == [] then []
    else Roused(s, turns[..|turns| - 1], p) + Rouses(Run(s, turns[..|turns| - 1]), turns[|turns| - 1], p)
  }

  lemma WaitersStep<P, T>(s: State<P, T>, turn: Turn<P, T>, p: P)
    requires Legal(s, turn.thread, turn.op)
    ensures Waiters(s, p) + Dozes(s, turn, p) == Rouses(s, turn, p) + Waiters(Step(s, turn.thread, turn.op).0, p)
  {
    hide Told;
    hide L.VanishStep;
    hide L.Buried;
    hide L.FirstExited;
    hide L.Step;
    hide L.Legal;
    var w := Waiters(s, p);
    assert w != [] ==> w == [w[0]] + w[1..];
  }

  /** Over every run the threads of a process are woken in the order in which they went
      to sleep, one for each child that exits. */
  lemma {:induction false} WokenInOrder<P, T>(s: State<P, T>, turns: seq<Turn<P, T>>, p: P)
    ensures Waiters(s, p) + Dozed(s, turns, p) == Roused(s, turns, p) + Waiters(Run(s, turns), p)
  {
    hide Step;
    hide Legal;
    hide ChildExits;
    hide Waiters;
    if turns != [] {
      var before, turn := turns[..|turns| - 1], turns[|turns| - 1];
      var s1 := Run(s, before);
      WokenInOrder(s, before, p);
      if Legal(s1, turn.thread, turn.op) {
        WaitersStep(s1, turn, p);
      }
      QueueMoves(Waiters(s, p), Dozed(s, before, p), Roused(s, before, p), Waiters(s1, p),
        Dozes(s1, turn, p), Rouses(s1, turn, p), Waiters(Run(s, turns), p));
    }
  }

  // ----- no child is null -----

  /** Init is the only process without a parent. */
  ghost predicate OneRoot<P, T>(f: L.State<P, T>) {
    forall p :: p in f.procs && f.procs[p].parent.None? ==> p == f.init
  }

  /** A thread that has left the loop of wait without a child belongs to a process
      without children. */
  ghost predicate Childfree<P, T>(s: State<P, T>) {
    forall t :: t in s.pc && At(s, t) == Seen(None) ==> NoKids(s.fam, t)
  }

  ghost predicate NoKids<P, T>(f: L.State<P, T>, t: T) {
    t in f.owner && f.owner[t] in f.procs && f.procs[f.owner[t]].kids == []
  }

  /** If init has no children there is no other process. */
  lemma {:induction false} InitAlone<P, T>(f: L.State<P, T>, p: P)
    requires L.Inv(f) && OneRoot(f) && f.procs[f.init].kids == [] && p in f.procs
    ensures p == f.init
    decreases f.procs[p].pid
  {
    assert L.KinOk(f, p);
    if p != f.init {
      InitAlone(f, f.procs[p].parent.value);
    }
  }

  lemma LookChildfree<P, T>(s: State<P, T>, t: T)
    requires Good(s) && Legal(s, t, Look) && Childfree(s)
    ensures Childfree(LookStep(s, t).0)
  {
    hide L.FirstExited;
    hide Claims;
    hide Prompt;
    hide NoKids;
    hide L.Inv;
    NoZombies(s.fam, s.fam.owner[t]);
    RunnerAlive(s, t);
    KidsCounted(s, t);
    assert forall u :: u in s.pc && u != t ==> At(LookStep(s, t).0, u) == At(s, u);
  }

  lemma KidsCounted<P, T>(s: State<P, T>, t: T)
    requires L.Inv(s.fam) && CanRun(s, t)
    ensures s.fam.procs[s.fam.owner[t]].children == 0 ==> NoKids(s.fam, t)
  {
    RunnerAlive(s, t);
    assert L.KinOk(s.fam, s.fam.owner[t]);
  }

  /** Two threads that have not vanished are two active threads. */
  lemma TwoActive<P, T>(f: L.State<P, T>, t: T, u: T)
    requires L.Inv(f) && t in f.owner && u in f.owner && f.owner[t] == f.owner[u] && t != u && t !in f.gone && u !in f.gone
    ensures f.owner[t] in f.procs && f.procs[f.owner[t]].active > 1
  {
    hide L.KinOk;
    var family := f.procs[f.owner[t]].family;
    assert L.ThreadsOk(f, f.owner[t]);
    L.LiveAfter(family, f.gone, t);
    L.LiveNone(family, f.gone + {t});
    hide L.Live;
  }

  /** Only a fork gives a process a child, and only if it has one active thread. */
  lemma OtherKids<P, T>(f: L.State<P, T>, p: P, call: L.Op<P, T>)
    requires L.Legal(f, call) && Calls(p, call) && p in f.procs
    ensures var f' := L.Step(f, call).0;
      && (forall q :: q in f.procs ==> q in f'.procs && (q != p || f.procs[p].active > 1 ==> f'.procs[q].kids == f.procs[q].kids))
      && (OneRoot(f) ==> OneRoot(f'))
  {
    hide L.Linked;
    hide L.New;
    hide L.CanCall;
    if call.Fork? {
      L.LinkedEffect(f, p, call.child);
    }
  }

  lemma OtherChildfree<P, T>(s: State<P, T>, t: T, call: L.Op<P, T>)
    requires L.Legal(s.fam, call) && CanRun(s, t) && At(s, t).Outside? && Calls(s.fam.owner[t], call)
    requires Good(s) && OneRoot(s.fam) && Childfree(s)
    ensures OneRoot(L.Step(s.fam, call).0) && Childfree(s.(fam := L.Step(s.fam, call).0))
  {
    hide L.Inv;
    hide L.Step;
    hide L.Legal;
    hide Calls;
    hide OneRoot;
    hide Claims;
    hide Prompt;
    hide ListOk;
    OtherKeeps(s.fam, s.fam.owner[t], call);
    OtherKids(s.fam, s.fam.owner[t], call);
    var s' := s.(fam := L.Step(s.fam, call).0);
    forall u | u in s'.pc && At(s', u) == Seen(None)
      ensures NoKids(s'.fam, u)
    {
      assert At(s, u) == Seen(None) && ThreadOk(s, u) && NoKids(s.fam, u);
      if s.fam.owner[u] == s.fam.owner[t] {
        TwoActive(s.fam, t, u);
      }
    }
  }

  lemma CollectChildfree<P, T>(s: State<P, T>, t: T)
    requires CanRun(s, t) && At(s, t).Found? && Good(s) && OneRoot(s.fam) && Childfree(s)
    ensures OneRoot(CollectStep(s, t).0.fam) && Childfree(CollectStep(s, t).0)
  {
    hide L.Buried;
    hide L.Inv;
    hide Prompt;
    hide Without;
    assert Claim(s, t, At(s, t).child);
    var c, s' := At(s, t).child.value, CollectStep(s, t).0;
    L.InvForest(s.fam);
    L.BuriedEffect(s.fam, c);
    if s'.fam != s.fam {
      forall u | u in s'.pc && At(s', u) == Seen(None)
        ensures NoKids(s'.fam, u)
      {
        assert u != t && At(s, u) == Seen(None) && ThreadOk(s, u) && NoKids(s.fam, u);
        ChildFacts(s.fam, c, s.fam.owner[t]);
        Survives(s.fam, c, u);
      }
    }
  }

  lemma VanishChildfree<P, T>(s: State<P, T>, t: T)
    requires CanRun(s, t) && At(s, t).Outside? && LR.Safe(s.fam, L.Vanish(t)) && Good(s) && OneRoot(s.fam) && Childfree(s)
    ensures OneRoot(L.VanishStep(s.fam, t)) && Childfree(s.(fam := L.VanishStep(s.fam, t)))
  {
    hide L.Inv;
    hide L.Exit;
    hide L.Forest;
    hide Claims;
    hide Prompt;
    var p, f1, f := s.fam.owner[t], L.Withdrawn(s.fam, t), L.VanishStep(s.fam, t);
    var s' := s.(fam := f);
    L.WithdrawnCounted(s.fam, t, p);
    if s.fam.procs[p].active == 1 {
      LastOut(s, t);
      L.ExitEffect(f1, p);
      ExitingIdle(s, t);
      forall u | u in s'.pc && At(s', u) == Seen(None)
        ensures NoKids(f, u)
      {
        assert At(s, u) == Seen(None) && NoKids(s.fam, u);
        if s.fam.owner[u] == s.fam.init {
          InitAlone(s.fam, p);
        }
      }
    } else {
      assert f == f1;
      assert forall u :: u in s'.pc ==> At(s', u) == At(s, u);
    }
  }

  lemma GotoChildfree<P, T>(s: State<P, T>, t: T, pc: Pc<P>)
    requires Childfree(s) && pc != Seen(None)
    ensures Childfree(Goto(s, t, pc))
  {
    hide NoKids;
    assert forall u :: u in s.pc && u != t ==> At(Goto(s, t, pc), u) == At(s, u);
  }

  /** Whether a thread left the loop without a child does not depend on the waiting
      lists. */
  lemma ChildfreeOf<P, T>(s: State<P, T>, s': State<P, T>)
    requires Childfree(s) && s'.fam == s.fam && s'.pc == s.pc
    ensures Childfree(s')
  {
    hide NoKids;
    assert forall u :: u in s.pc ==> At(s', u) == At(s, u);
  }

  lemma StepChildfree<P, T>(s: State<P, T>, t: T, op: Op<P, T>)
    requires Legal(s, t, op) && Good(s) && Timely(s, t, op) && OneRoot(s.fam) && Childfree(s)
    ensures OneRoot(Step(s, t, op).0.fam) && Childfree(Step(s, t, op).0)
  {
    hide Good;
    hide OneRoot;
    hide Childfree;
    hide L.Step;
    hide L.VanishStep;
    hide L.Buried;
    hide L.FirstExited;
    match op
    case Look => LookChildfree(s, t);
    case Doze =>
      GotoChildfree(s, t, Asleep);
      ChildfreeOf(Goto(s, t, Asleep), DozeStep(s, t));
    case Check => GotoChildfree(s, t, At(CheckStep(s, t).0, t));
    case Collect => CollectChildfree(s, t);
    case Vanish =>
      VanishChildfree(s, t);
      ChildfreeOf(s.(fam := L.VanishStep(s.fam, t)), VanishStep(s, t));
    case Other(call) => OtherChildfree(s, t, call);
  }

  /** From boot, over every run in time: wait never goes on with a child it has not seen,
      and a thread that left its loop without one is sent away. */
  lemma {:induction false} NeverNull<P, T>(init: P, t: T, turns: seq<Turn<P, T>>)
    requires InTime(Boot(init, t), turns)
    ensures var s := Run(Boot(init, t), turns);
      && Good(s) && OneRoot(s.fam) && Childfree(s)
      && (forall u :: u in s.pc && CanRun(s, u) && At(s, u) == Seen(None) ==> CheckStep(s, u).1 == Returned(L.ChildrenGone))
      && (forall u :: u in s.pc && At(s, u).Found? ==> CollectStep(s, u).1 != NullDereference)
  {
    hide Step;
    hide Childfree;
    hide OneRoot;
    hide Good;
    hide Timely;
    var s := Run(Boot(init, t), turns);
    if turns == [] {
      BootGood(init, t);
      BootChildfree(init, t);
    } else {
      var before, turn := turns[..|turns| - 1], turns[|turns| - 1];
      NeverNull(init, t, before);
      var s1 := Run(Boot(init, t), before);
      if Legal(s1, turn.thread, turn.op) {
        StepExact(s1, turn.thread, turn.op);
        StepChildfree(s1, turn.thread, turn.op);
      }
    }
    NoNulls(s);
  }

  lemma BootChildfree<P, T>(init: P, t: T)
    ensures OneRoot(Boot(init, t).fam) && Childfree(Boot(init, t))
  {
  }

  lemma NoNulls<P, T>(s: State<P, T>)
    requires Good(s) && Childfree(s)
    ensures forall u :: u in s.pc && CanRun(s, u) && At(s, u) == Seen(None) ==> CheckStep(s, u).1 == Returned(L.ChildrenGone)
    ensures forall u :: u in s.pc && At(s, u).Found? ==> CollectStep(s, u).1 != NullDereference
  {
    hide L.Inv;
    hide L.Buried;
    forall u | u in s.pc && CanRun(s, u) && At(s, u) == Seen(None)
      ensures CheckStep(s, u).1 == Returned(L.ChildrenGone)
    {
      RunnerAlive(s, u);
      KidsAre(s.fam, s.fam.owner[u]);
    }
  }

  lemma KidsAre<P, T>(f: L.State<P, T>, p: P)
    requires L.Inv(f) && p in f.procs && f.procs[p].life.Alive?
    ensures f.procs[p].children == |f.procs[p].kids|
  {
    assert L.KinOk(f, p);
  }
}

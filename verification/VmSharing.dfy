/** What fork does to each page of the parent: it shares the frame, unless the frame
    is saturated; and a run that saturates one, in a memory of any size. */
module VmSharing {
  import opened Collections
  import opened FrameAllocator
  import opened PageTables
  import opened VirtualMemory
  import opened VmInvariant
  import opened VmFork
  import opened VmRefinement
  import opened VmLimits

  // ----- one page -----

  /** The page at `l` before, and after with its copy at `c`: parent and child share the
      frame with the same entry, or, if it was saturated, the child has another frame
      and may write to it. */
  ghost predicate PageForked(vm: Vm, vm': Vm, l: Loc, c: Loc) {
    var e, e', ec := Entry(vm.spaces, l), Entry(vm'.spaces, l), Entry(vm'.spaces, c);
    if IsSaturated(vm, l) then e' == e && Owning(ec) && ec.ppn != e.ppn && ec.rw
    else ec == e' && Owning(ec) && ec.ppn == e.ppn && Writable(ec) == Writable(e)
  }

  /** The page has the same entry, and its frame is as saturated as it was. */
  ghost predicate Untouched(vm: Vm, vm': Vm, l: Loc) {
    Entry(vm'.spaces, l) == Entry(vm.spaces, l) && (IsSaturated(vm', l) <==> IsSaturated(vm, l))
  }

  lemma CopyEntryPage(vm: Vm, p: nat, c: nat, i: nat, j: nat)
    requires Inv(vm) && p != c && HasTable(vm.spaces, Loc(c, i, j)) && Owning(Entry(vm.spaces, Loc(p, i, j)))
    requires IsSaturated(vm, Loc(p, i, j)) ==> vm.frames.next != -1
    ensures PageForked(vm, CopyEntry(vm, p, c, i, j), Loc(p, i, j), Loc(c, i, j))
  {
    hide Conserved;
    hide Exclusive;
    hide SamePage;
    hide SetEntry;
    var pl, cl := Loc(p, i, j), Loc(c, i, j);
    var e := Entry(vm.spaces, pl);
    MappedEntry(vm, pl);
    if IsSaturated(vm, pl) {
      CopySaturatedResult(vm, p, c, i, j);
      PutDiffers(vm, cl, e.(rw := true, cow := false, ppn := USER_PPN + vm.frames.next));
      NextIsFree(vm);
    } else if e.rw {
      var shared := e.(rw := false, cow := true);
      PutDiffers(vm, pl, shared);
      PutDiffers(Put(vm, pl, shared), cl, shared);
    } else {
      PutDiffers(vm, cl, e);
    }
  }

  /** An entry copied before: a later one does not change it. */
  lemma Later(vm: Vm, vm1: Vm, vm': Vm, l: Loc, c: Loc)
    requires PageForked(vm, vm1, l, c)
    requires Entry(vm'.spaces, l) == Entry(vm1.spaces, l) && Entry(vm'.spaces, c) == Entry(vm1.spaces, c)
    ensures PageForked(vm, vm', l, c)
  {
  }

  lemma Earlier(vm: Vm, vm1: Vm, vm': Vm, l: Loc, c: Loc)
    requires Untouched(vm, vm1, l) && PageForked(vm1, vm', l, c)
    ensures PageForked(vm, vm', l, c)
  {
  }

  // ----- a page table -----

  /** Copying that ends well went well all along. */
  lemma CopyEntriesPrefix(vm: Vm, p: nat, c: nat, i: nat, j: nat)
    requires Inv(vm) && p != c && KERNEL_DIRS <= i < ENTRIES && j < ENTRIES && EmptyDir(vm, c, i)
    requires Inv(CopyEntries(vm, p, c, i, j + 1))
    ensures var vm1 := CopyEntries(vm, p, c, i, j);
      && Inv(vm1) && HasTable(vm1.spaces, Loc(c, i, j)) && Entry(vm1.spaces, Loc(c, i, j)) == NO_PTE
      && (IsSaturated(vm1, Loc(p, i, j)) ==> vm1.frames.next != -1)
  {
    hide CopyEntry;
    hide Inv;
    hide Sound;
    hide Room;
    hide Overcommitted;
    InvSound(vm);
    CopyEntriesTables(vm, p, c, i, j);
    CopyEntriesExact(vm, p, c, i, j, Pos(i, j));
    var vm1 := CopyEntries(vm, p, c, i, j);
    if !Inv(vm1) {
      CopyEntryKeepsOvercommitted(vm1, p, c, i, j);
      OvercommittedBreaksInv(CopyEntry(vm1, p, c, i, j));
    } else if IsSaturated(vm1, Loc(p, i, j)) && vm1.frames.next == -1 {
      CopyEntryStuck(vm1, p, c, i, j);
      OvercommittedBreaksInv(CopyEntry(vm1, p, c, i, j));
    }
  }

  /** Where copying stands with the page at `l` after the first `j` entries of
      directory `i`. */
  ghost predicate PageAfter(vm: Vm, vm': Vm, l: Loc, c: nat, done: bool) {
    if done then PageForked(vm, vm', l, Loc(c, l.dir, l.idx)) else Untouched(vm, vm', l)
  }

  lemma {:induction false} CopyEntriesPage(vm: Vm, p: nat, c: nat, i: nat, j: nat, l: Loc)
    requires Inv(vm) && p != c && KERNEL_DIRS <= i < ENTRIES && j <= ENTRIES && EmptyDir(vm, c, i)
    requires l.pid == p && Owning(Entry(vm.spaces, l)) && Inv(CopyEntries(vm, p, c, i, j))
    ensures PageAfter(vm, CopyEntries(vm, p, c, i, j), l, c, Before(l, i, j))
  {
    hide CopyEntry;
    hide Inv;
    hide EmptyDir;
    hide IsSaturated;
    if j != 0 {
      CopyEntriesPrefix(vm, p, c, i, j - 1);
      CopyEntriesPage(vm, p, c, i, j - 1, l);
      PageStep(vm, CopyEntries(vm, p, c, i, j - 1), p, c, i, j - 1, l);
    }
  }

  /** One more entry. */
  lemma PageStep(vm: Vm, vm1: Vm, p: nat, c: nat, i: nat, j: nat, l: Loc)
    requires Inv(vm1) && p != c && HasTable(vm1.spaces, Loc(c, i, j)) && KERNEL_DIRS <= i < ENTRIES && j < ENTRIES
    requires IsSaturated(vm1, Loc(p, i, j)) ==> vm1.frames.next != -1
    requires l.pid == p && Owning(Entry(vm.spaces, l)) && PageAfter(vm, vm1, l, c, Before(l, i, j))
    ensures PageAfter(vm, CopyEntry(vm1, p, c, i, j), l, c, Before(l, i, j + 1))
  {
    hide CopyEntry;
    hide Inv;
    hide IsSaturated;
    InvSound(vm1);
    hide Sound;
    CopyEntryStep(vm1, p, c, i, j);
    var vm' := CopyEntry(vm1, p, c, i, j);
    if l == Loc(p, i, j) {
      CopyEntryPage(vm1, p, c, i, j);
      Earlier(vm, vm1, vm', l, Loc(c, i, j));
    } else if Before(l, i, j) {
      Later(vm, vm1, vm', l, Loc(c, l.dir, l.idx));
    } else {
      SaturationElsewhere(vm1, p, c, i, j, l);
    }
  }

  // ----- the directory -----

  /** Copying a directory touches that directory of the two processes only. */
  lemma CopyDirElsewhere(vm: Vm, p: nat, c: nat, i: nat)
    requires Sound(vm) && p in vm.spaces && c in vm.spaces && p != c && i < ENTRIES && NoTablesFrom(vm, c, i)
    ensures forall m: Loc :: !((m.pid == p || m.pid == c) && m.dir == i) ==>
      Entry(CopyDir(vm, p, c, i).spaces, m) == Entry(vm.spaces, m)
  {
    hide Sound;
    hide CopyEntries;
    UserDirs(vm, p, i);
    UserDirs(vm, c, i);
    if UserDir(vm, p, i) {
      ChildTable(vm, c, i);
      CopyEntriesTables(vm.(spaces := InstallTable(vm.spaces, c, i)), p, c, i, ENTRIES);
    }
  }

  lemma CopyDirPage(vm: Vm, p: nat, c: nat, i: nat, l: Loc)
    requires Inv(vm) && p in vm.spaces && c in vm.spaces && p != c && i < ENTRIES && NoTablesFrom(vm, c, i)
    requires l.pid == p && Owning(Entry(vm.spaces, l)) && Inv(CopyDir(vm, p, c, i))
    ensures PageAfter(vm, CopyDir(vm, p, c, i), l, c, l.dir == i)
  {
    hide Sound;
    hide CopyEntries;
    InvSound(vm);
    UserDirs(vm, p, i);
    UserDirs(vm, c, i);
    MappedEntry(vm, l);
    hide Inv;
    if UserDir(vm, p, i) {
      ChildTable(vm, c, i);
      var vm1 := vm.(spaces := InstallTable(vm.spaces, c, i));
      CopyEntriesPage(vm1, p, c, i, ENTRIES, l);
    } else {
      assert l == Loc(p, l.dir, l.idx);
    }
  }

  lemma CopyDirsPrefix(vm: Vm, p: nat, c: nat, n: nat)
    requires Inv(vm) && p in vm.spaces && c in vm.spaces && p != c && n < ENTRIES && NoTablesFrom(vm, c, 0)
    ensures var vm1 := CopyDirs(vm, p, c, n);
      && Sound(vm1) && vm1.spaces.Keys == vm.spaces.Keys && NoTablesFrom(vm1, c, n)
      && (Inv(CopyDirs(vm, p, c, n + 1)) ==> Inv(vm1))
  {
    hide Inv;
    hide Sound;
    hide Room;
    hide Overcommitted;
    hide CopyDir;
    hide NoTablesFrom;
    CopyDirsExact(vm, p, c, n, Pos(n, 0));
    CopyDirTables(CopyDirs(vm, p, c, n), p, c, n);
    if Overcommitted(CopyDirs(vm, p, c, n + 1)) {
      OvercommittedBreaksInv(CopyDirs(vm, p, c, n + 1));
    }
  }

  lemma {:induction false} CopyDirsElsewhere(vm: Vm, p: nat, c: nat, n: nat)
    requires Inv(vm) && p in vm.spaces && c in vm.spaces && p != c && n <= ENTRIES && NoTablesFrom(vm, c, 0)
    ensures forall m: Loc :: m.pid != p && m.pid != c ==> Entry(CopyDirs(vm, p, c, n).spaces, m) == Entry(vm.spaces, m)
  {
    hide Inv;
    hide Sound;
    hide CopyDir;
    hide NoTablesFrom;
    if n != 0 {
      CopyDirsElsewhere(vm, p, c, n - 1);
      CopyDirsPrefix(vm, p, c, n - 1);
      CopyDirElsewhere(CopyDirs(vm, p, c, n - 1), p, c, n - 1);
    }
  }

  lemma {:induction false} CopyDirsPage(vm: Vm, p: nat, c: nat, n: nat, l: Loc)
    requires Inv(vm) && p in vm.spaces && c in vm.spaces && p != c && n <= ENTRIES && NoTablesFrom(vm, c, 0)
    requires l.pid == p && Owning(Entry(vm.spaces, l)) && Inv(CopyDirs(vm, p, c, n))
    ensures PageAfter(vm, CopyDirs(vm, p, c, n), l, c, l.dir < n)
  {
    hide Inv;
    hide Sound;
    hide CopyDir;
    hide NoTablesFrom;
    hide IsSaturated;
    if n != 0 {
      CopyDirsPrefix(vm, p, c, n - 1);
      CopyDirsPage(vm, p, c, n - 1, l);
      var vm1 := CopyDirs(vm, p, c, n - 1);
      var vm' := CopyDir(vm1, p, c, n - 1);
      CopyDirElsewhere(vm1, p, c, n - 1);
      if l.dir < n - 1 {
        Later(vm, vm1, vm', l, Loc(c, l.dir, l.idx));
      } else {
        CopyDirPage(vm1, p, c, n - 1, l);
        if l.dir == n - 1 {
          Earlier(vm, vm1, vm', l, Loc(c, l.dir, l.idx));
        }
      }
    }
  }

  // ----- fork -----

  /** A fork with room shares exactly the pages whose frames are not saturated, with the
      same entry for parent and child; the child gets a writable frame of its own for
      each of the others.  No entry of a third process changes. */
  lemma ForkSharesExact(vm: Vm, p: nat, c: nat, n: nat, l: Loc)
    requires Inv(vm) && p in vm.spaces && c !in vm.spaces && n <= ENTRIES && Room(vm, p, 0, Pos(n, 0))
    requires l.pid == p && l.dir < n && Owning(Entry(vm.spaces, l))
    ensures PageForked(vm, Fork(vm, p, c, n), l, Loc(c, l.dir, l.idx))
  {
    hide Inv;
    hide CopyDirs;
    hide NoTablesFrom;
    hide InitSpace;
    hide Room;
    ForkExact(vm, p, c, n);
    SpawnInv(vm, c);
    var vm1 := vm.(spaces := vm.spaces[c := InitSpace(vm.zeroPpn)]);
    CopyDirsPage(vm1, p, c, n, l);
  }

  lemma ForkElsewhere(vm: Vm, p: nat, c: nat, n: nat)
    requires Inv(vm) && p in vm.spaces && c !in vm.spaces && n <= ENTRIES
    ensures forall m: Loc :: m.pid != p && m.pid != c ==> Entry(Fork(vm, p, c, n).spaces, m) == Entry(vm.spaces, m)
  {
    hide Inv;
    hide CopyDirs;
    hide NoTablesFrom;
    hide InitSpace;
    SpawnInv(vm, c);
    CopyDirsElsewhere(vm.(spaces := vm.spaces[c := InitSpace(vm.zeroPpn)]), p, c, n);
  }

  // ----- a frame with many owners -----

  /** The page at the start of user memory, in process `i`. */
  function First(i: nat): Loc {
    Loc(i, KERNEL_DIRS, 0)
  }

  /** Processes 0 to `k` have one page each, all on the frame `f`. */
  ghost predicate Family(vm: Vm, k: nat, f: nat, writable: bool) {
    && Inv(vm) && f < |vm.frames.counts|
    && (forall i: nat :: i in vm.spaces <==> i <= k)
    && (forall m: Loc :: Mapped(Entry(vm.spaces, m)) <==> m.pid <= k && m == First(m.pid))
    && (forall m: Loc :: Mapped(Entry(vm.spaces, m)) ==> Member(Entry(vm.spaces, m), f, writable))
  }

  predicate Member(e: Pte, f: nat, writable: bool) {
    Owning(e) && e.ppn == USER_PPN + f && Writable(e) == writable
  }

  ghost function FirstPages(k: nat): set<Loc> {
    set i | 0 <= i <= k :: First(i)
  }

  lemma {:induction false} FirstPagesSize(k: nat)
    ensures |FirstPages(k)| == k + 1
  {
    if k == 0 {
      assert FirstPages(0) == {First(0)};
    } else {
      FirstPagesSize(k - 1);
      assert FirstPages(k) == FirstPages(k - 1) + {First(k)};
      assert First(k) !in FirstPages(k - 1);
    }
  }

  lemma FamilyCounts(vm: Vm, k: nat, f: nat, w: bool)
    requires Family(vm, k, f, w)
    ensures vm.frames.counts[f] == k + 1 && forall g :: 0 <= g < |vm.frames.counts| && g != f ==> vm.frames.counts[g] == 0
    ensures forall m: Loc :: IsSaturated(vm, m) <==> k + 1 == MAX_OWNERS && m.pid <= k && m == First(m.pid)
  {
    hide Tables;
    hide Exclusive;
    hide SamePage;
    FirstPagesSize(k);
    forall m: Loc
      ensures m in Owners(vm.spaces, f) <==> m in FirstPages(k)
    {
      OwnersMember(vm.spaces, f, m);
    }
    assert Owners(vm.spaces, f) == FirstPages(k);
    forall g | 0 <= g < |vm.frames.counts| && g != f
      ensures Owners(vm.spaces, g) == {}
    {
      forall m: Loc
        ensures m !in Owners(vm.spaces, g)
      {
        OwnersMember(vm.spaces, g, m);
      }
    }
  }

  /** The first process forks one more child. */
  lemma FamilyForks(vm: Vm, k: nat, f: nat, w: bool)
    requires Family(vm, k, f, w) && k + 1 < MAX_OWNERS
    ensures Room(vm, 0, 0, Pos(ENTRIES, 0)) && Family(Fork(vm, 0, k + 1, ENTRIES), k + 1, f, w)
  {
    hide Inv;
    hide Fork;
    FamilyCounts(vm, k, f, w);
    var vm' := Fork(vm, 0, k + 1, ENTRIES);
    NoSaturatedRoom(vm, 0, Pos(ENTRIES, 0));
    hide Room;
    hide IsSaturated;
    ForkExact(vm, 0, k + 1, ENTRIES);
    ForkSizes(vm, 0, k + 1, ENTRIES);
    ForkElsewhere(vm, 0, k + 1, ENTRIES);
    ForkSharesExact(vm, 0, k + 1, ENTRIES, First(0));
    forall m: Loc
      ensures Mapped(Entry(vm'.spaces, m)) <==> m.pid <= k + 1 && m == First(m.pid)
      ensures Mapped(Entry(vm'.spaces, m)) ==> Member(Entry(vm'.spaces, m), f, w)
    {
      FamilyMapped(vm, vm', k, f, w, m);
    }
  }

  lemma NoSaturatedRoom(vm: Vm, p: nat, hi: nat)
    requires forall m: Loc :: !IsSaturated(vm, m)
    ensures Room(vm, p, 0, hi)
  {
    assert Saturated(vm, p, 0, hi) == {};
  }

  lemma FamilyMapped(vm: Vm, vm': Vm, k: nat, f: nat, w: bool, m: Loc)
    requires Family(vm, k, f, w) && k + 1 < MAX_OWNERS && SpaceCopied(vm, vm', 0, k + 1, ENTRIES) && !IsSaturated(vm, First(0))
    requires PageForked(vm, vm', First(0), First(k + 1))
    requires forall x: Loc :: x.pid != 0 && x.pid != k + 1 ==> Entry(vm'.spaces, x) == Entry(vm.spaces, x)
    ensures Mapped(Entry(vm'.spaces, m)) <==> m.pid <= k + 1 && m == First(m.pid)
    ensures Mapped(Entry(vm'.spaces, m)) ==> Member(Entry(vm'.spaces, m), f, w)
  {
    hide Inv;
    hide IsSaturated;
    assert ShadowOf(vm', m).Some? <==> Mapped(Entry(vm'.spaces, m));
    assert ShadowOf(vm, m).Some? <==> Mapped(Entry(vm.spaces, m));
    if m.pid == k + 1 {
      var l := Loc(0, m.dir, m.idx);
      assert m == Loc(k + 1, m.dir, m.idx);
      assert ShadowOf(vm, l).Some? <==> Mapped(Entry(vm.spaces, l));
      assert Mapped(Entry(vm.spaces, l)) <==> l == First(0);
    }
  }

  // ----- runs that reach it -----

  lemma GoodAppend(vm: Vm, ops: seq<Op>, op: Op)
    requires GoodRun(vm, ops) && Legal(Run(vm, ops), op) && Roomy(Run(vm, ops), op)
    ensures GoodRun(vm, ops + [op]) && Run(vm, ops + [op]) == Apply(Run(vm, ops), op)
  {
    hide Apply;
    hide Legal;
    hide Roomy;
    var longer := ops + [op];
    forall k | 0 <= k < |longer|
      ensures Legal(Run(vm, longer[..k]), longer[k]) && Roomy(Run(vm, longer[..k]), longer[k])
    {
      assert longer[..k] == ops[..k];
      if k == |ops| {
        assert ops[..k] == ops;
      }
    }
    RunOne(vm, ops, op);
  }

  /** One process without pages, and all of memory free. */
  ghost predicate Bare(vm: Vm) {
    && Inv(vm) && vm.spaces.Keys == {0} && vm.frames.next == 0 && |vm.frames.counts| > 0 && vm.frames.counts[0] == 0
    && forall m: Loc :: !Mapped(Entry(vm.spaces, m))
  }

  lemma SpawnedFirst(vm: Vm)
    requires Initial(vm)
    ensures Legal(vm, Spawn(0)) && Roomy(vm, Spawn(0)) && Bare(Apply(vm, Spawn(0)))
    ensures Apply(vm, Spawn(0)).frames == vm.frames
  {
    hide Inv;
    InitialInv(vm);
    SpawnInv(vm, 0);
  }

  lemma CreatedFirst(vm: Vm, t: MemType)
    requires Bare(vm) && !t.Bss?
    ensures var op := Create(First(0), t, true);
      && Legal(vm, op) && Roomy(vm, op) && Family(Apply(vm, op), 0, 0, WritableType(t))
      && |Apply(vm, op).frames.counts| == |vm.frames.counts|
  {
    hide Inv;
    hide CreatePage;
    hide Family;
    CreatePageInv(vm, First(0), t, None, true);
    CreatePageSucceeds(vm, First(0), t, true);
    var vm' := Apply(vm, Create(First(0), t, true));
    SameSize(vm, vm');
    FirstMember(vm, vm', t);
  }

  /** The first process gets its first page. */
  lemma FirstOfFamily(vm: Vm, t: MemType) returns (ops: seq<Op>)
    requires Initial(vm) && !t.Bss?
    ensures GoodRun(vm, ops) && Family(Run(vm, ops), 0, 0, WritableType(t))
    ensures |Run(vm, ops).frames.counts| == |vm.frames.counts|
  {
    hide Apply;
    hide Legal;
    hide Roomy;
    hide GoodRun;
    hide Run;
    hide Bare;
    hide Family;
    hide Initial;
    EmptyRun(vm);
    SpawnedFirst(vm);
    GoodAppend(vm, [], Spawn(0));
    CreatedFirst(Apply(vm, Spawn(0)), t);
    GoodAppend(vm, [] + [Spawn(0)], Create(First(0), t, true));
    ops := [] + [Spawn(0)] + [Create(First(0), t, true)];
  }

  lemma EmptyRun(vm: Vm)
    ensures GoodRun(vm, []) && Run(vm, []) == vm
  {
  }

  lemma FirstMember(vm: Vm, vm': Vm, t: MemType)
    requires Inv(vm') && PageAdded(vm, vm', First(0), t) && !t.Bss? && vm.frames.next == 0 && vm.spaces.Keys == {0}
    requires |vm'.frames.counts| == |vm.frames.counts|
    requires forall m: Loc :: !Mapped(Entry(vm.spaces, m))
    ensures Family(vm', 0, 0, WritableType(t))
  {
    hide Inv;
  }

  /** The first process forks until process `k` is there. */
  lemma {:induction false} FamilyGrows(vm: Vm, t: MemType, k: nat) returns (ops: seq<Op>)
    requires Initial(vm) && !t.Bss? && k < MAX_OWNERS
    ensures GoodRun(vm, ops) && Family(Run(vm, ops), k, 0, WritableType(t))
    ensures |Run(vm, ops).frames.counts| == |vm.frames.counts|
  {
    hide Inv;
    hide GoodRun;
    hide Run;
    hide Fork;
    hide Room;
    if k == 0 {
      ops := FirstOfFamily(vm, t);
    } else {
      var before := FamilyGrows(vm, t, k - 1);
      var vm1 := Run(vm, before);
      FamilyForks(vm1, k - 1, 0, WritableType(t));
      ForkSizes(vm1, 0, k, ENTRIES);
      GoodAppend(vm, before, DoFork(0, k, ENTRIES));
      ops := before + [DoFork(0, k, ENTRIES)];
    }
  }

  /** In a memory of any size a run of forks saturates a frame. */
  lemma SaturationReachable(vm: Vm, t: MemType) returns (ops: seq<Op>)
    requires Initial(vm) && !t.Bss?
    ensures GoodRun(vm, ops)
    ensures var vm' := Run(vm, ops);
      && Inv(vm') && 0 in vm'.spaces && MAX_OWNERS !in vm'.spaces && |vm'.frames.counts| == |vm.frames.counts|
      && IsSaturated(vm', First(0)) && Writable(Entry(vm'.spaces, First(0))) == WritableType(t)
      && (forall m: Loc :: m.pid == 0 && m != First(0) ==> !IsSaturated(vm', m))
      && (forall g :: 0 < g < |vm.frames.counts| ==> vm'.frames.counts[g] == 0)
  {
    hide Inv;
    hide GoodRun;
    hide Run;
    ops := FamilyGrows(vm, t, MAX_OWNERS - 1);
    FamilyCounts(Run(vm, ops), MAX_OWNERS - 1, 0, WritableType(t));
  }

  /** With one frame of memory the next fork has no room, and breaks the invariant. */
  lemma ForkStuckReachable(vm: Vm) returns (ops: seq<Op>)
    requires Initial(vm) && |vm.frames.counts| == 1
    ensures GoodRun(vm, ops)
    ensures var vm' := Run(vm, ops);
      Inv(vm') && Legal(vm', DoFork(0, MAX_OWNERS, ENTRIES)) && !Inv(Fork(vm', 0, MAX_OWNERS, ENTRIES))
  {
    hide GoodRun;
    hide Run;
    hide Fork;
    hide Tables;
    ops := SaturationReachable(vm, Data);
    var vm' := Run(vm, ops);
    ForkExact(vm', 0, MAX_OWNERS, ENTRIES);
    NoRoom(vm', 0, First(0), 0, Pos(ENTRIES, 0));
  }

  /** With more the next fork copies the page, and the child may write to what the
      parent may only read. */
  lemma ForkGrantsWrite(vm: Vm) returns (ops: seq<Op>)
    requires Initial(vm) && |vm.frames.counts| > 1
    ensures GoodRun(vm, ops)
    ensures var vm' := Run(vm, ops);
      && Legal(vm', DoFork(0, MAX_OWNERS, ENTRIES)) && Roomy(vm', DoFork(0, MAX_OWNERS, ENTRIES))
      && var vm2 := Fork(vm', 0, MAX_OWNERS, ENTRIES);
      && Inv(vm2) && !Writable(Entry(vm2.spaces, First(0))) && Writable(Entry(vm2.spaces, First(MAX_OWNERS)))
  {
    hide GoodRun;
    hide Run;
    hide Fork;
    hide Inv;
    ops := SaturationReachable(vm, Text);
    var vm' := Run(vm, ops);
    OneSaturatedRoom(vm', 0, Pos(ENTRIES, 0), First(0), 1);
    ForkExact(vm', 0, MAX_OWNERS, ENTRIES);
    ForkSharesExact(vm', 0, MAX_OWNERS, ENTRIES, First(0));
  }

  lemma OneSaturatedRoom(vm: Vm, p: nat, hi: nat, l: Loc, g: nat)
    requires forall m: Loc :: m.pid == p && m != l ==> !IsSaturated(vm, m)
    requires g < |vm.frames.counts| && vm.frames.counts[g] == 0
    ensures Room(vm, p, 0, hi)
  {
    assert Saturated(vm, p, 0, hi) <= {l};
    SubsetSize(Saturated(vm, p, 0, hi), {l});
    assert {g} <= FreeFrames(vm);
    SubsetSize({g}, FreeFrames(vm));
  }

  /** A store by the kernel after a check for reading only reaches the parent: after one
      fork, in a memory of any size. */
  lemma KernelStoreReachable(vm: Vm, off: nat, v: bv8) returns (ops: seq<Op>)
    requires Initial(vm) && off < PAGE_BYTES
    ensures GoodRun(vm, ops)
    ensures ByteAt(Store(Run(vm, ops), First(1), off, v), First(0), off) == Some(v)
  {
    hide GoodRun;
    hide Run;
    hide Initial;
    hide Family;
    hide Store;
    hide ByteAt;
    ops := FamilyGrows(vm, Data, 1);
    FamilyStore(Run(vm, ops), true, off, v);
  }

  lemma FamilyStore(vm: Vm, w: bool, off: nat, v: bv8)
    requires Family(vm, 1, 0, w) && off < PAGE_BYTES
    ensures ByteAt(Store(vm, First(1), off, v), First(0), off) == Some(v)
  {
    hide Conserved;
    hide Exclusive;
    hide SamePage;
    assert Mapped(Entry(vm.spaces, First(0))) && Mapped(Entry(vm.spaces, First(1)));
    MappedEntry(vm, First(0));
    MappedEntry(vm, First(1));
  }
}

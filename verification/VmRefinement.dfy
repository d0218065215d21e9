/** Copy-on-write memory refines eager copying: over every run, each process sees
    the pages it would see if fork had copied everything. */
module VmRefinement {
  import opened Collections
  import opened FrameAllocator
  import opened PageTables
  import opened VirtualMemory
  import opened VmInvariant
  import opened VmFork
  import opened EagerMemory

  // ----- releasing the pages of a process -----

  /** A released page is gone, unless it is a zero page, which is skipped. */
  lemma ReleaseEntryEffect(vm: Vm, l: Loc)
    requires Inv(vm)
    ensures var vm' := ReleaseEntry(vm, l);
      && Inv(vm')
      && vm'.spaces.Keys == vm.spaces.Keys && vm'.zeroPpn == vm.zeroPpn && vm'.mem == vm.mem && vm'.zeroPage == vm.zeroPage
      && (forall m :: HasTable(vm'.spaces, m) <==> HasTable(vm.spaces, m))
      && Differ(vm.spaces, vm'.spaces, l)
      && !Owning(Entry(vm'.spaces, l))
  {
    ReleaseEntryInv(vm, l);
    var e := Entry(vm.spaces, l);
    if Mapped(e) {
      MappedEntry(vm, l);
      PutDiffers(vm, l, NO_PTE);
    }
  }

  /** The first `j` pages of directory `i` own nothing any more; the rest of the
      system is as it was. */
  ghost predicate DirReleased(vm: Vm, vm': Vm, p: nat, i: nat, j: nat) {
    && vm'.spaces.Keys == vm.spaces.Keys && vm'.zeroPpn == vm.zeroPpn && vm'.mem == vm.mem && vm'.zeroPage == vm.zeroPage
    && (forall m :: HasTable(vm'.spaces, m) <==> HasTable(vm.spaces, m))
    && (forall m: Loc :: !(m.pid == p && Before(m, i, j)) ==> Entry(vm'.spaces, m) == Entry(vm.spaces, m))
    && (forall j': nat :: j' < j ==> !Owning(Entry(vm'.spaces, Loc(p, i, j'))))
  }

  lemma {:induction false} ReleaseEntriesEffect(vm: Vm, p: nat, i: nat, j: nat)
    requires Inv(vm)
    ensures Inv(ReleaseEntries(vm, p, i, j)) && DirReleased(vm, ReleaseEntries(vm, p, i, j), p, i, j)
  {
    hide Inv;
    hide ReleaseEntry;
    if j != 0 {
      ReleaseEntriesEffect(vm, p, i, j - 1);
      ReleaseEntryEffect(ReleaseEntries(vm, p, i, j - 1), Loc(p, i, j - 1));
    }
  }

  /** Process `p` has nothing mapped in the directories below `n`; other pages are
      as they were. */
  ghost predicate SpaceReset(vm: Vm, vm': Vm, p: nat, n: nat) {
    && vm'.spaces.Keys == vm.spaces.Keys && vm'.zeroPpn == vm.zeroPpn && vm'.mem == vm.mem && vm'.zeroPage == vm.zeroPage
    && (forall m: Loc :: !(m.pid == p && m.dir < n) ==> Entry(vm'.spaces, m) == Entry(vm.spaces, m))
    && (forall i: nat, j: nat :: i < n ==> !Mapped(Entry(vm'.spaces, Loc(p, i, j))))
  }

  /** Unlinking a page table none of whose entries owns a frame. */
  lemma UnlinkTable(vm: Vm, p: nat, i: nat)
    requires Inv(vm) && p in vm.spaces && KERNEL_DIRS <= i < ENTRIES
    requires forall j: nat :: !Owning(Entry(vm.spaces, Loc(p, i, j)))
    requires i < |vm.spaces[p]|
    ensures var vm' := vm.(spaces := SetPde(vm.spaces, p, i, NO_PDE));
      && Inv(vm')
      && (forall m: Loc :: !(m.pid == p && m.dir == i) ==> Entry(vm'.spaces, m) == Entry(vm.spaces, m))
      && (forall j: nat :: Entry(vm'.spaces, Loc(p, i, j)) == NO_PTE)
  {
    var vm' := vm.(spaces := SetPde(vm.spaces, p, i, NO_PDE));
    forall m: Loc ensures Entry(vm'.spaces, m) == if m.pid == p && m.dir == i then NO_PTE else Entry(vm.spaces, m) {
    }
    forall m: Loc | m.pid == p && m.dir == i ensures !Owning(Entry(vm.spaces, m)) {
      assert m == Loc(p, i, m.idx);
    }
    forall q | q in vm'.spaces ensures SpaceShape(vm'.spaces[q], vm.zeroPpn) {
      assert SpaceShape(vm.spaces[q], vm.zeroPpn);
    }
    forall m: Loc | m.dir >= KERNEL_DIRS ensures EntryOk(Entry(vm'.spaces, m), |vm.frames.counts|, vm.zeroPpn) {
      assert EntryOk(Entry(vm.spaces, m), |vm.frames.counts|, vm.zeroPpn);
    }
    SameEntriesInv(vm, vm');
  }

  lemma ResetDirEffect(vm: Vm, p: nat, i: nat)
    requires Inv(vm) && p in vm.spaces && i < ENTRIES
    ensures var vm' := ResetDir(vm, p, i);
      && Inv(vm')
      && vm'.spaces.Keys == vm.spaces.Keys && vm'.zeroPpn == vm.zeroPpn && vm'.mem == vm.mem && vm'.zeroPage == vm.zeroPage
      && (forall m: Loc :: !(m.pid == p && m.dir == i) ==> Entry(vm'.spaces, m) == Entry(vm.spaces, m))
      && (forall j: nat :: !Mapped(Entry(vm'.spaces, Loc(p, i, j))))
  {
    hide Inv;
    hide Sound;
    InvSound(vm);
    UserDirs(vm, p, i);
    if UserDir(vm, p, i) {
      ReleaseEntriesEffect(vm, p, i, ENTRIES);
      var vm1 := ReleaseEntries(vm, p, i, ENTRIES);
      InvSound(vm1);
      UserDirs(vm1, p, i);
      NotKernelDir(vm1, p, i);
      forall j: nat ensures !Owning(Entry(vm1.spaces, Loc(p, i, j))) {
      }
      UnlinkTable(vm1, p, i);
    }
  }

  lemma NotKernelDir(vm: Vm, p: nat, i: nat)
    requires Sound(vm) && UserDir(vm, p, i) && KERNEL_DIRS <= i < ENTRIES
    ensures !vm.spaces[p][i].kernel
  {
    assert SpaceShape(vm.spaces[p], vm.zeroPpn);
  }

  lemma {:induction false} ResetDirsEffect(vm: Vm, p: nat, n: nat)
    requires Inv(vm) && p in vm.spaces && n <= ENTRIES
    ensures Inv(ResetDirs(vm, p, n)) && SpaceReset(vm, ResetDirs(vm, p, n), p, n)
  {
    hide Inv;
    hide ResetDir;
    if n != 0 {
      ResetDirsEffect(vm, p, n - 1);
      ResetDirEffect(ResetDirs(vm, p, n - 1), p, n - 1);
    }
  }

  lemma {:induction false} ReleaseDirsEffect(vm: Vm, p: nat, n: nat)
    requires Inv(vm) && n <= ENTRIES
    ensures var vm' := ReleaseDirs(vm, p, n);
      && Inv(vm')
      && vm'.spaces.Keys == vm.spaces.Keys && vm'.zeroPpn == vm.zeroPpn && vm'.mem == vm.mem && vm'.zeroPage == vm.zeroPage
      && (forall m: Loc :: m.pid != p ==> Entry(vm'.spaces, m) == Entry(vm.spaces, m))
      && (forall i: nat, j: nat :: i < n ==> !Owning(Entry(vm'.spaces, Loc(p, i, j))))
  {
    hide Inv;
    hide ReleaseEntries;
    if n != 0 {
      ReleaseDirsEffect(vm, p, n - 1);
      var vm1 := ReleaseDirs(vm, p, n - 1);
      ReleaseEntriesEffect(vm1, p, n - 1, ENTRIES);
      var vm' := ReleaseDirs(vm, p, n);
      forall i: nat, j: nat | i < n ensures !Owning(Entry(vm'.spaces, Loc(p, i, j))) {
        if i < n - 1 {
          assert Entry(vm'.spaces, Loc(p, i, j)) == Entry(vm1.spaces, Loc(p, i, j));
        }
      }
    }
  }

  /** Teardown keeps the invariant, removes the process and is seen by no other. */
  lemma TeardownEffect(vm: Vm, p: nat)
    requires Inv(vm)
    ensures var vm' := Teardown(vm, p);
      && Inv(vm') && p !in vm'.spaces && vm'.mem == vm.mem && vm'.zeroPage == vm.zeroPage
      && (forall m: Loc :: m.pid != p ==> Entry(vm'.spaces, m) == Entry(vm.spaces, m))
  {
    ReleaseDirsEffect(vm, p, ENTRIES);
    hide ReleaseDirs;
    hide Conserved;
    hide Exclusive;
    var vm1 := ReleaseDirs(vm, p, ENTRIES);
    var vm' := Teardown(vm, p);
    forall m: Loc ensures Entry(vm'.spaces, m) == if m.pid == p then NO_PTE else Entry(vm1.spaces, m) {
    }
    forall m: Loc | m.pid == p ensures !Owning(Entry(vm1.spaces, m)) {
      assert m == Loc(p, m.dir, m.idx);
    }
    forall m: Loc | m.dir >= KERNEL_DIRS ensures EntryOk(Entry(vm'.spaces, m), |vm1.frames.counts|, vm1.zeroPpn) {
      assert EntryOk(Entry(vm1.spaces, m), |vm1.frames.counts|, vm1.zeroPpn);
    }
    SameEntriesInv(vm1, vm');
  }

  // ----- the eager view -----

  ghost function MappedPages(ss: Spaces): set<Loc> {
    set p, i, j | p in ss && 0 <= i < ENTRIES && 0 <= j < ENTRIES && Mapped(Entry(ss, Loc(p, i, j))) :: Loc(p, i, j)
  }

  /** What every process sees, page by page. */
  ghost function View(vm: Vm): Eager {
    map l | l in MappedPages(vm.spaces) && ShadowOf(vm, l).Some? :: ShadowOf(vm, l).value
  }

  lemma ViewMember(vm: Vm, l: Loc)
    ensures l in View(vm) <==> ShadowOf(vm, l).Some?
    ensures l in View(vm) ==> View(vm)[l] == ShadowOf(vm, l).value
  {
    assert l == Loc(l.pid, l.dir, l.idx);
    if Mapped(Entry(vm.spaces, l)) {
      assert l in MappedPages(vm.spaces);
    }
  }

  lemma ViewIs(vm: Vm, m: Eager)
    requires forall l :: l in m <==> ShadowOf(vm, l).Some?
    requires forall l :: l in m ==> m[l] == ShadowOf(vm, l).value
    ensures View(vm) == m
  {
    forall l ensures (l in View(vm) <==> l in m) && (l in m ==> View(vm)[l] == m[l]) {
      ViewMember(vm, l);
    }
  }

  /** The paging operations of the running system. */
  datatype Op =
    | Spawn(pid: nat)
    | Create(at: Loc, mtype: MemType, tableOk: bool)
    | Destroy(at: Loc)
    | Write(at: Loc, off: nat, v: bv8)
    | DoFork(parent: nat, child: nat, dirs: nat)
    | DoReset(pid: nat)
    | DoTeardown(pid: nat)

  function Apply(vm: Vm, op: Op): Vm {
    match op
    case Spawn(p) => vm.(spaces := vm.spaces[p := InitSpace(vm.zeroPpn)])
    case Create(l, t, tableOk) => CreatePage(vm, l, t, None, tableOk).0
    case Destroy(l) => DestroyPage(vm, l).0
    case Write(l, off, v) => UserWrite(vm, l, off, v).0
    case DoFork(p, c, n) => Fork(vm, p, c, n)
    case DoReset(p) => Reset(vm, p)
    case DoTeardown(p) => Teardown(vm, p)
  }

  /** The operation is on a process that exists, and a new process is new. */
  predicate Legal(vm: Vm, op: Op) {
    match op
    case Spawn(p) => p !in vm.spaces
    case Create(l, _, _) => l.pid in vm.spaces && l.dir < ENTRIES && l.idx < ENTRIES
    case Destroy(_) => true
    case Write(_, _, _) => true
    case DoFork(p, c, n) => p in vm.spaces && c !in vm.spaces && n <= ENTRIES
    case DoReset(p) => p in vm.spaces
    case DoTeardown(p) => true
  }

  /** There are enough free frames: for the copy a write to a shared page needs,
      and for the saturated frames of a fork. */
  ghost predicate Roomy(vm: Vm, op: Op) {
    match op
    case Write(l, _, _) => WriteRoom(vm, l)
    case DoFork(p, _, n) => Room(vm, p, 0, Pos(n, 0))
    case _ => true
  }

  /** What the operation does to private pages: a new page has arbitrary
      contents, and its creation may fail. */
  ghost predicate EagerNext(m: Eager, op: Op, m': Eager) {
    match op
    case Spawn(_) => m' == m
    case Create(l, t, _) =>
      m' == m || (l !in m && exists page: Page :: |page| == PAGE_BYTES && m' == m[l := NewShadow(t, page)])
    case Destroy(l) => m' == m - {l}
    case Write(l, off, v) => m' == Written(m, l, off, v)
    case DoFork(p, c, n) => Forked(m, m', p, c, n)
    case DoReset(p) => m' == Dropped(m, p)
    case DoTeardown(p) => m' == Dropped(m, p)
  }

  function NewShadow(t: MemType, page: Page): Shadow {
    if t.Bss? then OnDemand else Private(page, WritableType(t))
  }

  // ----- each operation refines its eager counterpart -----

  /** A page whose entry and frame did not change looks the same. */
  lemma SameShadow(vm: Vm, vm': Vm, m: Loc)
    requires Inv(vm) && Entry(vm'.spaces, m) == Entry(vm.spaces, m)
    requires |vm'.mem| == |vm.mem|
    requires Owning(Entry(vm.spaces, m)) && 0 <= FrameId(Entry(vm.spaces, m).ppn) < |vm.mem| ==>
      vm'.mem[FrameId(Entry(vm.spaces, m).ppn)] == vm.mem[FrameId(Entry(vm.spaces, m).ppn)]
    ensures ShadowOf(vm', m) == ShadowOf(vm, m)
  {
    if Mapped(Entry(vm.spaces, m)) {
      MappedEntry(vm, m);
    }
  }

  /** Same entries but at `l`, same memory: the views differ at `l` at most. */
  lemma ViewAfter(vm: Vm, vm': Vm, l: Loc)
    requires Inv(vm) && Differ(vm.spaces, vm'.spaces, l) && vm'.mem == vm.mem
    ensures View(vm') == match ShadowOf(vm', l) case Some(s) => View(vm)[l := s] case None => View(vm) - {l}
  {
    hide Inv;
    forall m ensures (m in View(vm) <==> ShadowOf(vm, m).Some?) && (m in View(vm) ==> View(vm)[m] == ShadowOf(vm, m).value) {
      ViewMember(vm, m);
    }
    forall m | m != l ensures ShadowOf(vm', m) == ShadowOf(vm, m) {
      SameShadow(vm, vm', m);
    }
    hide View;
    ViewIs(vm', match ShadowOf(vm', l) case Some(s) => View(vm)[l := s] case None => View(vm) - {l});
  }

  lemma CreateRefines(vm: Vm, l: Loc, t: MemType, tableOk: bool)
    requires Inv(vm) && Legal(vm, Create(l, t, tableOk))
    ensures EagerNext(View(vm), Create(l, t, tableOk), View(CreatePage(vm, l, t, None, tableOk).0))
  {
    hide CreatePage;
    hide View;
    hide Conserved;
    hide SamePage;
    hide Exclusive;
    hide Tables;
    CreatePageInv(vm, l, t, None, tableOk);
    var (vm', status) := CreatePage(vm, l, t, None, tableOk);
    if status == Success {
      ViewMember(vm, l);
      ViewAfter(vm, vm', l);
      var page := if t.Bss? then ZeroFill() else vm.mem[vm.frames.next];
      assert |page| == PAGE_BYTES;
      assert ShadowOf(vm', l) == Some(NewShadow(t, page));
      assert View(vm') == View(vm)[l := NewShadow(t, page)];
    } else {
      SameSpacesView(vm, vm');
    }
  }

  lemma SameSpacesView(vm: Vm, vm': Vm)
    requires vm'.spaces == vm.spaces && vm'.mem == vm.mem && vm'.zeroPage == vm.zeroPage
    ensures View(vm') == View(vm)
  {
    forall l ensures ShadowOf(vm', l) == ShadowOf(vm, l) {
    }
  }

  lemma DestroyRefines(vm: Vm, l: Loc)
    requires Inv(vm)
    ensures EagerNext(View(vm), Destroy(l), View(DestroyPage(vm, l).0))
  {
    var vm' := DestroyPage(vm, l).0;
    ViewMember(vm, l);
    var e := Entry(vm.spaces, l);
    if Mapped(e) {
      MappedEntry(vm, l);
      PutDiffers(vm, l, NO_PTE);
      ViewAfter(vm, vm', l);
    } else {
      assert View(vm) - {l} == View(vm);
    }
  }

  /** A store through a writable mapping changes no other page. */
  lemma StoreElsewhere(vm: Vm, l: Loc, off: nat, v: bv8, m: Loc)
    requires Inv(vm) && UserWritable(vm, l) && m != l
    ensures ShadowOf(Store(vm, l, off, v), m) == ShadowOf(vm, m)
  {
    hide Conserved;
    hide SamePage;
    hide Shaped;
    hide EntriesOk;
    var e := Entry(vm.spaces, l);
    if Owning(Entry(vm.spaces, m)) && Owning(e) && Entry(vm.spaces, m).ppn == e.ppn {
      TwoOwnersCounted(vm, l, m);
    }
    if Owning(Entry(vm.spaces, m)) {
      MappedEntry(vm, m);
    }
    MappedEntry(vm, l);
    SameShadow(vm, Store(vm, l, off, v), m);
  }

  /** On the page itself exactly that byte changes. */
  lemma StoreHere(vm: Vm, l: Loc, off: nat, v: bv8)
    requires Inv(vm) && UserWritable(vm, l)
    ensures var s, s' := ShadowOf(vm, l), ShadowOf(Store(vm, l, off, v), l);
      && s.Some? && s'.Some?
      && (s.value.Private? ==> s.value.writable)
      && (s.value.Private? ==>
            s'.value == if off < |s.value.contents| then s.value.(contents := s.value.contents[off := v]) else s.value)
      && (s.value.OnDemand? ==> s'.value.OnDemand?)
  {
    hide Conserved;
    hide SamePage;
    hide Exclusive;
    MappedEntry(vm, l);
  }

  /** A store through a writable mapping is seen by its process alone. */
  lemma StoreRefines(vm: Vm, l: Loc, off: nat, v: bv8)
    requires Inv(vm) && UserWritable(vm, l)
    ensures View(Store(vm, l, off, v)) == Written(View(vm), l, off, v)
  {
    hide View;
    hide Store;
    hide Inv;
    forall m ensures (m in View(vm) <==> ShadowOf(vm, m).Some?) && (m in View(vm) ==> View(vm)[m] == ShadowOf(vm, m).value) {
      ViewMember(vm, m);
    }
    forall m | m != l ensures ShadowOf(Store(vm, l, off, v), m) == ShadowOf(vm, m) {
      StoreElsewhere(vm, l, off, v, m);
    }
    StoreHere(vm, l, off, v);
    hide ShadowOf;
    ViewIs(Store(vm, l, off, v), Written(View(vm), l, off, v));
  }

  /** Taking a private copy is invisible. */
  lemma UnsharedView(vm: Vm, vm': Vm, l: Loc)
    requires Inv(vm) && Unshared(vm, vm', l) && Owning(Entry(vm.spaces, l)) && Entry(vm.spaces, l).cow
    ensures View(vm') == View(vm)
  {
    hide View;
    MappedEntry(vm, l);
    forall m ensures ShadowOf(vm', m) == ShadowOf(vm, m) {
      if m != l {
        if Owning(Entry(vm.spaces, m)) {
          OwnerCounted(vm, m);
        }
        SameShadow(vm, vm', m);
      }
    }
    forall m ensures (m in View(vm) <==> ShadowOf(vm', m).Some?) && (m in View(vm) ==> View(vm)[m] == ShadowOf(vm', m).value) {
      ViewMember(vm, m);
    }
    ViewIs(vm', View(vm));
  }

  lemma WriteRefines(vm: Vm, l: Loc, off: nat, v: bv8)
    requires Inv(vm) && WriteRoom(vm, l)
    ensures View(UserWrite(vm, l, off, v).0) == Written(View(vm), l, off, v)
  {
    hide View;
    hide WriteRoom;
    ViewMember(vm, l);
    var e := Entry(vm.spaces, l);
    if UserWritable(vm, l) {
      StoreRefines(vm, l, off, v);
    } else if Mapped(e) {
      MappedEntry(vm, l);
      UserTable(vm, l);
      if e.zero {
        ZeroPagesNeverFault(vm, l);
      } else if e.cow {
        CowFaultExact(vm, l);
        var vm1 := PageFault(vm, l).0;
        UnsharedView(vm, vm1, l);
        StoreRefines(vm1, l, off, v);
      }
    } else {
      UnmappedFault(vm, l);
    }
  }

  /** A fault on a page that is not mapped changes nothing. */
  lemma UnmappedFault(vm: Vm, l: Loc)
    requires Inv(vm) && !Mapped(Entry(vm.spaces, l))
    ensures PageFault(vm, l) == (vm, Killed)
  {
    if l.dir < KERNEL_DIRS {
      KernelEntry(vm, l);
    } else {
      assert EntryOk(Entry(vm.spaces, l), |vm.frames.counts|, vm.zeroPpn);
    }
  }

  lemma ForkRefines(vm: Vm, p: nat, c: nat, n: nat)
    requires Inv(vm) && p in vm.spaces && c !in vm.spaces && n <= ENTRIES && Room(vm, p, 0, Pos(n, 0))
    ensures Forked(View(vm), View(Fork(vm, p, c, n)), p, c, n)
  {
    hide Inv;
    hide Room;
    hide Fork;
    ForkExact(vm, p, c, n);
    var vm' := Fork(vm, p, c, n);
    forall m ensures (m in View(vm) <==> ShadowOf(vm, m).Some?) && (m in View(vm) ==> View(vm)[m] == ShadowOf(vm, m).value)
             ensures (m in View(vm') <==> ShadowOf(vm', m).Some?) && (m in View(vm') ==> View(vm')[m] == ShadowOf(vm', m).value)
    {
      ViewMember(vm, m);
      ViewMember(vm', m);
    }
    hide View;
    hide ShadowOf;
  }

  /** The process sees nothing any more; the others see what they saw. */
  lemma DroppedView(vm: Vm, vm': Vm, p: nat)
    requires Inv(vm) && vm'.mem == vm.mem
    requires forall m: Loc :: m.pid != p ==> Entry(vm'.spaces, m) == Entry(vm.spaces, m)
    requires forall m: Loc :: m.pid == p ==> !Mapped(Entry(vm'.spaces, m))
    ensures View(vm') == Dropped(View(vm), p)
  {
    hide View;
    forall m ensures (m in View(vm) <==> ShadowOf(vm, m).Some?) && (m in View(vm) ==> View(vm)[m] == ShadowOf(vm, m).value) {
      ViewMember(vm, m);
    }
    forall m: Loc | m.pid != p ensures ShadowOf(vm', m) == ShadowOf(vm, m) {
      SameShadow(vm, vm', m);
    }
    ViewIs(vm', Dropped(View(vm), p));
  }

  lemma ResetRefines(vm: Vm, p: nat)
    requires Inv(vm) && p in vm.spaces
    ensures Inv(Reset(vm, p)) && View(Reset(vm, p)) == Dropped(View(vm), p)
  {
    hide Inv;
    hide ResetDirs;
    ResetDirsEffect(vm, p, ENTRIES);
    var vm' := Reset(vm, p);
    forall m: Loc | m.pid == p ensures !Mapped(Entry(vm'.spaces, m)) {
      assert m == Loc(p, m.dir, m.idx);
      if m.dir >= ENTRIES {
        assert !HasTable(vm'.spaces, m);
      }
    }
    DroppedView(vm, vm', p);
  }

  lemma TeardownRefines(vm: Vm, p: nat)
    requires Inv(vm)
    ensures Inv(Teardown(vm, p)) && View(Teardown(vm, p)) == Dropped(View(vm), p)
  {
    hide Inv;
    hide Teardown;
    TeardownEffect(vm, p);
    DroppedView(vm, Teardown(vm, p), p);
  }

  lemma SpawnRefines(vm: Vm, p: nat)
    requires Inv(vm) && p !in vm.spaces
    ensures View(Apply(vm, Spawn(p))) == View(vm)
  {
    hide Inv;
    hide View;
    hide Entry;
    hide InitSpace;
    SpawnInv(vm, p);
    var vm' := Apply(vm, Spawn(p));
    DroppedView(vm, vm', p);
    forall m ensures m in View(vm) ==> m.pid != p {
      NoPages(vm, p, m);
    }
    assert Dropped(View(vm), p) == View(vm);
  }

  lemma NoPages(vm: Vm, p: nat, m: Loc)
    requires p !in vm.spaces
    ensures m in View(vm) ==> m.pid != p
  {
    ViewMember(vm, m);
  }

  // ----- steps and runs -----

  /** Every step of the memory system: it keeps the invariant exactly when there
      is room, and then does to the pages what eager copying would do. */
  lemma StepRefines(vm: Vm, op: Op)
    requires Inv(vm) && Legal(vm, op)
    ensures Inv(Apply(vm, op)) <==> Roomy(vm, op)
    ensures Roomy(vm, op) ==> EagerNext(View(vm), op, View(Apply(vm, op)))
  {
    hide Inv;
    hide View;
    match op
    case Spawn(p) =>
      SpawnInv(vm, p);
      SpawnRefines(vm, p);
    case Create(l, t, tableOk) =>
      CreatePageInv(vm, l, t, None, tableOk);
      CreateRefines(vm, l, t, tableOk);
    case Destroy(l) =>
      DestroyPageInv(vm, l);
      DestroyRefines(vm, l);
    case Write(l, off, v) =>
      UserWriteInv(vm, l, off, v);
      if WriteRoom(vm, l) {
        WriteRefines(vm, l, off, v);
      }
    case DoFork(p, c, n) =>
      ForkExact(vm, p, c, n);
      if Room(vm, p, 0, Pos(n, 0)) {
        ForkRefines(vm, p, c, n);
      }
    case DoReset(p) => ResetRefines(vm, p);
    case DoTeardown(p) => TeardownRefines(vm, p);
  }

  /** The state after the operations `ops`. */
  function Run(vm: Vm, ops: seq<Op>): Vm {
    if ops == [] then vm else Apply(Run(vm, ops[..|ops| - 1]), ops[|ops| - 1])
  }

  /** Every operation of the run is legal and has room when its turn comes. */
  ghost predicate GoodRun(vm: Vm, ops: seq<Op>) {
    forall k :: 0 <= k < |ops| ==> Legal(Run(vm, ops[..k]), ops[k]) && Roomy(Run(vm, ops[..k]), ops[k])
  }

  lemma GoodPrefix(vm: Vm, ops: seq<Op>)
    requires GoodRun(vm, ops) && ops != []
    ensures var prefix, last := ops[..|ops| - 1], ops[|ops| - 1];
      GoodRun(vm, prefix) && Legal(Run(vm, prefix), last) && Roomy(Run(vm, prefix), last)
  {
    var prefix := ops[..|ops| - 1];
    forall k | 0 <= k < |prefix| ensures prefix[..k] == ops[..k] && prefix[k] == ops[k] {
    }
  }

  /** In every reachable state the counts are exact, shared frames are read-only
      and the kernel half of each address space is intact. */
  lemma {:induction false} RunInvariant(vm: Vm, ops: seq<Op>)
    requires Inv(vm) && GoodRun(vm, ops)
    ensures Inv(Run(vm, ops))
  {
    hide Inv;
    if ops != [] {
      GoodPrefix(vm, ops);
      RunInvariant(vm, ops[..|ops| - 1]);
      StepRefines(Run(vm, ops[..|ops| - 1]), ops[|ops| - 1]);
    }
  }

  /** Copy-on-write refines eager copying: from boot on, over any run, every step
      does to the pages of all processes what the eager machine does. */
  lemma RunRefines(vm: Vm, ops: seq<Op>, k: nat)
    requires Initial(vm) && GoodRun(vm, ops) && k < |ops|
    ensures View(vm) == map[]
    ensures EagerNext(View(Run(vm, ops[..k])), ops[k], View(Run(vm, ops[..k + 1])))
  {
    hide Inv;
    InitialInv(vm);
    forall l ensures l !in View(vm) {
      ViewMember(vm, l);
    }
    forall j | 0 <= j < k ensures ops[..k][..j] == ops[..j] && ops[..k][j] == ops[j] {
    }
    RunInvariant(vm, ops[..k]);
    StepRefines(Run(vm, ops[..k]), ops[k]);
    assert ops[..k + 1][..|ops[..k + 1]| - 1] == ops[..k];
  }

  // ----- what a forked child sees -----

  /** The process whose pages the operation may change. */
  function Subject(op: Op): nat {
    match op
    case Spawn(p) => p
    case Create(l, _, _) => l.pid
    case Destroy(l) => l.pid
    case Write(l, _, _) => l.pid
    case DoFork(_, c, _) => c
    case DoReset(p) => p
    case DoTeardown(p) => p
  }

  lemma EagerFrame(m: Eager, op: Op, m': Eager, l: Loc)
    requires EagerNext(m, op, m') && Subject(op) != l.pid
    ensures (l in m' <==> l in m) && (l in m ==> m'[l] == m[l])
  {
  }

  /** No run of operations on other processes changes what a process sees. */
  lemma {:induction false} Isolation(vm: Vm, ops: seq<Op>, l: Loc)
    requires Inv(vm) && GoodRun(vm, ops)
    requires forall k :: 0 <= k < |ops| ==> Subject(ops[k]) != l.pid
    ensures ShadowOf(Run(vm, ops), l) == ShadowOf(vm, l)
  {
    hide Inv;
    hide View;
    hide ShadowOf;
    if ops != [] {
      var prefix := ops[..|ops| - 1];
      GoodPrefix(vm, ops);
      Isolation(vm, prefix, l);
      RunInvariant(vm, prefix);
      var vm1, vm' := Run(vm, prefix), Run(vm, ops);
      StepRefines(vm1, ops[|ops| - 1]);
      EagerFrame(View(vm1), ops[|ops| - 1], View(vm'), l);
      ViewMember(vm1, l);
      ViewMember(vm', l);
      OptionSame(ShadowOf(vm1, l), ShadowOf(vm', l));
    }
  }

  lemma OptionSame<T>(a: Option<T>, b: Option<T>)
    requires a.Some? <==> b.Some?
    requires a.Some? ==> a.value == b.value
    ensures a == b
  {
  }

  /** A forked child sees the parent's pages as they were at the fork, whatever
      the parent and the others do afterwards. */
  lemma ForkSnapshot(vm: Vm, p: nat, c: nat, ops: seq<Op>, i: nat, j: nat)
    requires Inv(vm) && p in vm.spaces && c !in vm.spaces && Room(vm, p, 0, Pos(ENTRIES, 0))
    requires GoodRun(Fork(vm, p, c, ENTRIES), ops)
    requires forall k :: 0 <= k < |ops| ==> Subject(ops[k]) != c
    ensures SameOrCopy(ShadowOf(vm, Loc(p, i, j)), ShadowOf(Run(Fork(vm, p, c, ENTRIES), ops), Loc(c, i, j)))
  {
    hide Inv;
    hide Fork;
    ForkExact(vm, p, c, ENTRIES);
    var vm1 := Fork(vm, p, c, ENTRIES);
    Isolation(vm1, ops, Loc(c, i, j));
    if i >= ENTRIES {
      assert ShadowOf(vm, Loc(p, i, j)).None?;
    }
  }
}

/** Where the memory system does not isolate processes, and exactly when. */
module VmLimits {
  import opened Collections
  import opened FrameAllocator
  import opened PageTables
  import opened VirtualMemory
  import opened VmInvariant
  import opened VmFork
  import opened VmRefinement
  import opened EagerMemory

  /** The byte a process reads at `l`. */
  function ByteAt(vm: Vm, l: Loc, off: nat): Option<bv8> {
    var page := Contents(vm, Entry(vm.spaces, l));
    if Mapped(Entry(vm.spaces, l)) && off < |page| then Some(page[off]) else None
  }

  // ----- copy-on-write without a free frame -----

  /** The fault handler grants write access before it copies and ignores a failed
      copy: another owner of the page sees the write. */
  lemma CowWithoutFrameLeaks(vm: Vm, l: Loc, m: Loc, off: nat, v: bv8)
    requires Inv(vm) && l != m && off < PAGE_BYTES
    requires Owning(Entry(vm.spaces, l)) && Owning(Entry(vm.spaces, m)) && Entry(vm.spaces, l).ppn == Entry(vm.spaces, m).ppn
    requires Entry(vm.spaces, l).cow && vm.frames.next == -1
    ensures UserWrite(vm, l, off, v).1
    ensures ByteAt(UserWrite(vm, l, off, v).0, m, off) == Some(v)
  {
    hide Conserved;
    hide SamePage;
    MappedEntry(vm, l);
    UserTable(vm, l);
    TwoOwnersCounted(vm, l, m);
    var e := Entry(vm.spaces, l);
    assert !e.rw;
    var e1 := e.(cow := false, rw := true);
    PutDiffers(vm, l, e1);
    PutUserTable(vm, l, e1);
    var vm1 := PageFault(vm, l).0;
    assert vm1 == Put(vm, l, e1);
  }

  /** One page, forked: two owners of one frame. */
  function OnePageForked(t: MemType): seq<Op> {
    [Spawn(0), Create(Loc(0, KERNEL_DIRS, 0), t, true), DoFork(0, 1, ENTRIES)]
  }

  /** The first page of the first process. */
  lemma FirstPage(vm: Vm, t: MemType)
    requires Initial(vm)
    ensures var l := Loc(0, KERNEL_DIRS, 0);
      var vm1 := Apply(vm, Spawn(0));
      var vm2 := Apply(vm1, Create(l, t, true));
      && Inv(vm2) && vm1.spaces.Keys == {0} && vm2.spaces.Keys == {0}
      && vm2.zeroPage == vm.zeroPage && |vm2.frames.counts| == |vm.frames.counts|
      && (forall m :: !IsSaturated(vm2, m))
      && ShadowOf(vm2, l).Some?
      && (t.Bss? <==> ShadowOf(vm2, l).value.OnDemand?)
      && (WritableType(t) && !t.Bss? ==> ShadowOf(vm2, l).value.writable)
  {
    hide Inv;
    hide CreatePage;
    var l := Loc(0, KERNEL_DIRS, 0);
    InitialInv(vm);
    SpawnInv(vm, 0);
    var vm1 := Apply(vm, Spawn(0));
    CreatePageInv(vm1, l, t, None, true);
    assert vm.frames.counts[0] == 0;
    CreatePageSucceeds(vm1, l, t, true);
    var vm2 := Apply(vm1, Create(l, t, true));
    SameSize(vm1, vm2);
    FirstPageCounts(vm1, vm2, l, t);
    NoSaturation(vm2);
  }

  lemma SameSize(vm: Vm, vm': Vm)
    requires Inv(vm) && Inv(vm') && vm'.mem == vm.mem
    ensures |vm'.frames.counts| == |vm.frames.counts|
  {
  }

  /** The state after these three operations. */
  lemma OnePageForkedRun(vm: Vm, t: MemType)
    requires Initial(vm)
    ensures GoodRun(vm, OnePageForked(t))
    ensures var vm' := Run(vm, OnePageForked(t));
      && Inv(vm') && |vm'.frames.counts| == |vm.frames.counts|
      && vm'.zeroPage == vm.zeroPage
      && ShadowOf(vm', Loc(0, KERNEL_DIRS, 0)).Some?
      && SameOrCopy(ShadowOf(vm', Loc(0, KERNEL_DIRS, 0)), ShadowOf(vm', Loc(1, KERNEL_DIRS, 0)))
      && (t.Bss? <==> ShadowOf(vm', Loc(0, KERNEL_DIRS, 0)).value.OnDemand?)
      && (WritableType(t) && !t.Bss? ==> ShadowOf(vm', Loc(0, KERNEL_DIRS, 0)).value.writable)
  {
    hide Inv;
    hide CreatePage;
    hide Fork;
    hide ShadowOf;
    hide IsSaturated;
    FirstPage(vm, t);
    var ops := OnePageForked(t);
    var vm1 := Apply(vm, ops[0]);
    var vm2 := Apply(vm1, ops[1]);
    assert Saturated(vm2, 0, 0, Pos(ENTRIES, 0)) == {};
    ForkExact(vm2, 0, 1, ENTRIES);
    ForkSizes(vm2, 0, 1, ENTRIES);
    ThreeSteps(vm, ops);
  }

  lemma ThreeSteps(vm: Vm, ops: seq<Op>)
    requires |ops| == 3
    ensures Run(vm, ops[..0]) == vm
    ensures Run(vm, ops[..1]) == Apply(vm, ops[0])
    ensures Run(vm, ops[..2]) == Apply(Apply(vm, ops[0]), ops[1])
    ensures Run(vm, ops) == Apply(Apply(Apply(vm, ops[0]), ops[1]), ops[2])
  {
    hide Apply;
    assert [] + [ops[0]] == ops[..1] && ops[..1] + [ops[1]] == ops[..2] && ops[..2] + [ops[2]] == ops;
    RunOne(vm, [], ops[0]);
    RunOne(vm, ops[..1], ops[1]);
    RunOne(vm, ops[..2], ops[2]);
  }

  lemma RunOne(vm: Vm, ops: seq<Op>, op: Op)
    ensures Run(vm, ops + [op]) == Apply(Run(vm, ops), op)
  {
    assert (ops + [op])[..|ops|] == ops;
  }

  /** After the first page every count is 0 or 1. */
  lemma FirstPageCounts(vm: Vm, vm': Vm, l: Loc, t: MemType)
    requires Inv(vm) && Inv(vm') && PageAdded(vm, vm', l, t)
    requires forall m :: !Owning(Entry(vm.spaces, m))
    requires |vm'.frames.counts| == |vm.frames.counts|
    ensures forall f :: 0 <= f < |vm'.frames.counts| ==> vm'.frames.counts[f] <= 1
  {
    forall f | 0 <= f < |vm'.frames.counts| ensures vm'.frames.counts[f] <= 1 {
      SoleOwner(vm', l, f);
    }
  }

  lemma NoSaturation(vm: Vm)
    requires forall f :: 0 <= f < |vm.frames.counts| ==> vm.frames.counts[f] <= 1
    ensures forall l :: !IsSaturated(vm, l)
  {
  }

  lemma ForkSizes(vm: Vm, p: nat, c: nat, n: nat)
    requires Inv(vm) && p in vm.spaces && c !in vm.spaces && n <= ENTRIES
    ensures Fork(vm, p, c, n).zeroPage == vm.zeroPage && |Fork(vm, p, c, n).frames.counts| == |vm.frames.counts|
  {
    CopyDirsSizes(vm.(spaces := vm.spaces[c := InitSpace(vm.zeroPpn)]), p, c, n);
  }

  lemma {:induction false} CopyDirsSizes(vm: Vm, p: nat, c: nat, n: nat)
    ensures CopyDirs(vm, p, c, n).zeroPage == vm.zeroPage && |CopyDirs(vm, p, c, n).frames.counts| == |vm.frames.counts|
  {
    if n != 0 {
      CopyDirsSizes(vm, p, c, n - 1);
      var vm1 := CopyDirs(vm, p, c, n - 1);
      if UserDir(vm1, p, n - 1) && c in vm1.spaces && n - 1 < |vm1.spaces[c]| {
        CopyEntriesSizes(vm1.(spaces := InstallTable(vm1.spaces, c, n - 1)), p, c, n - 1, ENTRIES);
      }
    }
  }

  lemma {:induction false} CopyEntriesSizes(vm: Vm, p: nat, c: nat, i: nat, j: nat)
    ensures CopyEntries(vm, p, c, i, j).zeroPage == vm.zeroPage
    ensures |CopyEntries(vm, p, c, i, j).frames.counts| == |vm.frames.counts|
  {
    if j != 0 {
      CopyEntriesSizes(vm, p, c, i, j - 1);
    }
  }

  /** Two processes share the one frame there is. */
  lemma CowLeak(vm: Vm, parent: Loc, child: Loc, off: nat, v: bv8)
    requires Inv(vm) && |vm.frames.counts| == 1 && off < PAGE_BYTES && parent != child
    requires ShadowOf(vm, parent).Some? && !ShadowOf(vm, parent).value.OnDemand? && ShadowOf(vm, parent).value.writable
    requires SameOrCopy(ShadowOf(vm, parent), ShadowOf(vm, child))
    ensures !WriteRoom(vm, child)
    ensures ByteAt(UserWrite(vm, child, off, v).0, parent, off) == Some(v)
  {
    hide UserWrite;
    MappedEntry(vm, parent);
    MappedEntry(vm, child);
    TwoOwnersCounted(vm, parent, child);
    assert Entry(vm.spaces, child).cow;
    CowWithoutFrameLeaks(vm, child, parent, off, v);
  }

  /** With one frame of memory: after a fork the child's first write reaches the
      parent.  Isolation fails there. */
  lemma CowLeakReachable(vm: Vm, off: nat, v: bv8)
    requires Initial(vm) && |vm.frames.counts| == 1 && off < PAGE_BYTES
    ensures GoodRun(vm, OnePageForked(Data))
    ensures var vm1 := Run(vm, OnePageForked(Data));
      var parent, child := Loc(0, KERNEL_DIRS, 0), Loc(1, KERNEL_DIRS, 0);
      && !WriteRoom(vm1, child)
      && ByteAt(UserWrite(vm1, child, off, v).0, parent, off) == Some(v)
  {
    hide Inv;
    hide Run;
    hide GoodRun;
    hide ShadowOf;
    hide UserWrite;
    hide WriteRoom;
    OnePageForkedRun(vm, Data);
    CowLeak(Run(vm, OnePageForked(Data)), Loc(0, KERNEL_DIRS, 0), Loc(1, KERNEL_DIRS, 0), off, v);
  }

  // ----- stores by the kernel -----

  /** The kernel's own stores take no fault, since write protection does not apply to
      it: a store through a page leaves another page as it is exactly when the two
      do not share the frame or the byte does not change. */
  lemma KernelStoreExact(vm: Vm, l: Loc, m: Loc, off: nat, v: bv8)
    requires Inv(vm) && off < PAGE_BYTES && Owning(Entry(vm.spaces, l)) && Owning(Entry(vm.spaces, m))
    ensures |Contents(vm, Entry(vm.spaces, m))| == PAGE_BYTES
    ensures var vm' := Store(vm, l, off, v);
      Contents(vm', Entry(vm'.spaces, m)) == Contents(vm, Entry(vm.spaces, m)) <==>
        Entry(vm.spaces, l).ppn != Entry(vm.spaces, m).ppn || Contents(vm, Entry(vm.spaces, m))[off] == v
  {
    hide Conserved;
    hide Exclusive;
    MappedEntry(vm, l);
    MappedEntry(vm, m);
    var page := vm.mem[FrameId(Entry(vm.spaces, l).ppn)];
    assert page[off := v][off] == v;
    assert page[off] == v ==> page[off := v] == page;
  }

  /** A store after a check for writing stays in the page. */
  lemma CheckedStoreIsolated(vm: Vm, l: Loc, m: Loc, off: nat, v: bv8)
    requires Inv(vm) && off < PAGE_BYTES && Owning(Entry(vm.spaces, l)) && Entry(vm.spaces, l).rw
    requires Owning(Entry(vm.spaces, m)) && m != l
    ensures var vm' := Store(vm, l, off, v);
      Contents(vm', Entry(vm'.spaces, m)) == Contents(vm, Entry(vm.spaces, m))
  {
    hide Store;
    hide Contents;
    KernelStoreExact(vm, l, m, off, v);
    if Entry(vm.spaces, l).ppn == Entry(vm.spaces, m).ppn {
      TwoOwnersCounted(vm, l, m);
    }
  }

  // ----- zero pages -----

  /** create_page leaves zero pages writable, so a write to one goes to the zero
      frame itself: every zero page keeps its contents exactly when the write
      does not change the byte. */
  lemma ZeroPageWriteExact(vm: Vm, l: Loc, m: Loc, off: nat, v: bv8)
    requires Inv(vm) && off < PAGE_BYTES
    requires Mapped(Entry(vm.spaces, l)) && Entry(vm.spaces, l).zero
    requires Mapped(Entry(vm.spaces, m)) && Entry(vm.spaces, m).zero
    ensures var vm' := UserWrite(vm, l, off, v).0;
      Contents(vm', Entry(vm'.spaces, m)) == Contents(vm, Entry(vm.spaces, m)) <==> vm.zeroPage[off] == v
  {
    ZeroPagesNeverFault(vm, l);
    MappedEntry(vm, l);
    MappedEntry(vm, m);
    assert vm.zeroPage[off := v][off] == v;
  }

  /** A page zero-filled on demand, forked: the child's write changes what the
      parent reads. */
  lemma ZeroPageLeakReachable(vm: Vm)
    requires Initial(vm) && vm.zeroPage == ZeroFill()
    ensures GoodRun(vm, OnePageForked(Bss))
    ensures var vm1 := Run(vm, OnePageForked(Bss));
      var parent, child := Loc(0, KERNEL_DIRS, 0), Loc(1, KERNEL_DIRS, 0);
      && ByteAt(vm1, parent, 0) == Some(0)
      && ByteAt(UserWrite(vm1, child, 0, 1).0, parent, 0) == Some(1)
  {
    OnePageForkedRun(vm, Bss);
    var vm1 := Run(vm, OnePageForked(Bss));
    var parent, child := Loc(0, KERNEL_DIRS, 0), Loc(1, KERNEL_DIRS, 0);
    MappedEntry(vm1, parent);
    MappedEntry(vm1, child);
    ZeroPagesNeverFault(vm1, child);
  }

  // ----- saturated frames and permissions -----

  /** Fork keeps the write permission of a page, except that a read-only page on a
      saturated frame becomes writable in the child. */
  lemma ForkPermissionExact(vm: Vm, parent: nat, child: nat, i: nat, j: nat)
    requires Inv(vm) && parent != child && HasTable(vm.spaces, Loc(child, i, j))
    requires Owning(Entry(vm.spaces, Loc(parent, i, j)))
    requires IsSaturated(vm, Loc(parent, i, j)) ==> vm.frames.next != -1
    ensures var e, ec := Entry(vm.spaces, Loc(parent, i, j)), Entry(CopyEntry(vm, parent, child, i, j).spaces, Loc(child, i, j));
      Writable(ec) == Writable(e) <==> !(IsSaturated(vm, Loc(parent, i, j)) && !Writable(e))
  {
    var p, c := Loc(parent, i, j), Loc(child, i, j);
    var e := Entry(vm.spaces, p);
    MappedEntry(vm, p);
    if IsSaturated(vm, p) {
      CopySaturatedResult(vm, parent, child, i, j);
      PutDiffers(vm, c, e.(rw := true, cow := false, ppn := USER_PPN + vm.frames.next));
    } else if e.rw {
      var shared := e.(rw := false, cow := true);
      PutDiffers(vm, p, shared);
      PutDiffers(Put(vm, p, shared), c, shared);
    } else {
      PutDiffers(vm, c, e);
    }
  }
}

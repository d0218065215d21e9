/** What new_pages and remove_pages answer, and exactly when. */
module RegionOutcomes {
  import opened Collections
  import opened FrameAllocator
  import opened PageTables
  import opened VirtualMemory
  import opened VmInvariant
  import opened VmFork
  import opened Regions

  // ----- one page -----

  /** A page made with a frame of its own takes one free frame, and a table if there was
      none. */
  lemma MadePage(vm: Vm, l: Loc, tableOk: bool)
    requires Inv(vm) && l.pid in vm.spaces && l.dir < ENTRIES && l.idx < ENTRIES
    requires CreatePage(vm, l, User, None, tableOk).1 == Success
    ensures var vm' := CreatePage(vm, l, User, None, tableOk).0;
      && |FreeFrames(vm')| == |FreeFrames(vm)| - 1
      && (forall m :: HasTable(vm'.spaces, m) <==> HasTable(vm.spaces, m) || (m.pid == l.pid && m.dir == l.dir && m.idx < ENTRIES))
  {
    hide Conserved;
    hide Exclusive;
    hide SamePage;
    hide SetEntry;
    hide InstallTable;
    hide NextFree;
    MadeTables(vm, l, tableOk);
    MadeFrame(vm, l, tableOk);
    AllocateExact(vm.frames);
    var vm' := CreatePage(vm, l, User, None, tableOk).0;
    hide CreatePage;
    var f := Allocate(vm.frames).1.value;
    assert FreeFrames(vm') == FreeFrames(vm) - {f} && f in FreeFrames(vm);
  }

  lemma MadeFrame(vm: Vm, l: Loc, tableOk: bool)
    requires CreatePage(vm, l, User, None, tableOk).1 == Success
    ensures CreatePage(vm, l, User, None, tableOk).0.frames == Allocate(vm.frames).0 && Allocate(vm.frames).1.Some?
  {
    hide SetEntry;
    hide InstallTable;
    hide Allocate;
  }

  lemma MadeTables(vm: Vm, l: Loc, tableOk: bool)
    requires Tables(vm) && l.pid in vm.spaces && l.dir < ENTRIES && l.idx < ENTRIES
    requires CreatePage(vm, l, User, None, tableOk).1 == Success
    ensures var vm' := CreatePage(vm, l, User, None, tableOk).0;
      forall m :: HasTable(vm'.spaces, m) <==> HasTable(vm.spaces, m) || (m.pid == l.pid && m.dir == l.dir && m.idx < ENTRIES)
  {
    hide SetEntry;
    hide Allocate;
    hide EntriesOk;
    assert SpaceShape(vm.spaces[l.pid], vm.zeroPpn);
    var frames, frame := Allocate(vm.frames).0, Allocate(vm.frames).1;
    var vm1 := vm.(frames := frames);
    if HasTable(vm.spaces, l) {
      PutDiffers(vm1, l, NewEntry(Entry(vm.spaces, l), User, vm.zeroPpn, None, frame));
    } else {
      Installed(vm.spaces, l);
      var vm2 := vm1.(spaces := InstallTable(vm1.spaces, l.pid, l.dir));
      PutDiffers(vm2, l, NewEntry(Entry(vm2.spaces, l), User, vm.zeroPpn, None, frame));
    }
  }

  lemma Installed(ss: Spaces, l: Loc)
    requires l.pid in ss && l.dir < ENTRIES && l.dir < |ss[l.pid]| && !ss[l.pid][l.dir].present
    ensures forall m :: HasTable(InstallTable(ss, l.pid, l.dir), m) <==> HasTable(ss, m) || (m.pid == l.pid && m.dir == l.dir && m.idx < ENTRIES)
  {
  }

  // ----- the region -----

  /** Page `k` of the region can be made: it is a user page, not mapped, and its table is
      there, comes with an earlier page of the region or can be had. */
  ghost predicate PageFits(vm: Vm, pid: nat, base: nat, k: nat, tables: nat -> bool)
    requires base < MEMORY && k <= MAX_PAGES
  {
    var l := PageAt(pid, base, k);
    && l.dir >= KERNEL_DIRS && !Mapped(Entry(vm.spaces, l))
    && (HasTable(vm.spaces, l) || EarlierTable(pid, base, k) || tables(k))
  }

  ghost predicate EarlierTable(pid: nat, base: nat, k: nat)
    requires base < MEMORY && k <= MAX_PAGES
  {
    exists j: nat :: j < k && PageAt(pid, base, j).dir == PageAt(pid, base, k).dir
  }

  /** The first `n` pages have been made: their tables are there, and `n` frames fewer are
      free. */
  ghost predicate RangeFits(vm: Vm, vm': Vm, pid: nat, base: nat, n: nat)
    requires base < MEMORY && n <= MAX_PAGES + 1
  {
    && |FreeFrames(vm')| == |FreeFrames(vm)| - n
    && (forall m: Loc :: m.pid == pid && m.idx < ENTRIES ==>
         (HasTable(vm'.spaces, m) <==> HasTable(vm.spaces, m) || exists j: nat :: j < n && PageAt(pid, base, j).dir == m.dir))
  }

  lemma RangeFitsStep(vm: Vm, vm1: Vm, pid: nat, base: nat, n: nat, tableOk: bool)
    requires Inv(vm1) && pid in vm1.spaces && IsBase(base) && n <= MAX_PAGES && RangeFits(vm, vm1, pid, base, n)
    requires CreatePage(vm1, PageAt(pid, base, n), User, None, tableOk).1 == Success
    ensures RangeFits(vm, CreatePage(vm1, PageAt(pid, base, n), User, None, tableOk).0, pid, base, n + 1)
  {
    hide PageAt;
    hide CreatePage;
    hide HasTable;
    hide FreeFrames;
    var l := PageAt(pid, base, n);
    PageAtBounds(pid, base, n);
    MadePage(vm1, l, tableOk);
    var vm2 := CreatePage(vm1, l, User, None, tableOk).0;
    hide Inv;
    forall m: Loc | m.pid == pid && m.idx < ENTRIES
      ensures HasTable(vm2.spaces, m) <==> HasTable(vm.spaces, m) || exists j: nat :: j < n + 1 && PageAt(pid, base, j).dir == m.dir
    {
      if m.dir == l.dir {
        assert n < n + 1 && PageAt(pid, base, n).dir == m.dir;
      }
    }
  }

  /** Page `n` is made exactly if it fits and a frame is free. */
  lemma NextPage(vm: Vm, vm1: Vm, pid: nat, base: nat, n: nat, tables: nat -> bool)
    requires Inv(vm1) && pid in vm1.spaces && IsBase(base) && n <= MAX_PAGES
    requires RangeMade(vm, vm1, pid, base, n) && RangeFits(vm, vm1, pid, base, n)
    ensures CreatePage(vm1, PageAt(pid, base, n), User, None, tables(n)).1 == Success <==>
      PageFits(vm, pid, base, n, tables) && |FreeFrames(vm)| > n
  {
    hide PageAt;
    hide CreatePage;
    hide AllPrivate;
    var l := PageAt(pid, base, n);
    PageAtBounds(pid, base, n);
    CreatePageSucceeds(vm1, l, User, tables(n));
    hide Inv;
    forall k: nat | k < n
      ensures PageAt(pid, base, k) != l
    {
      PageAtDistinct(pid, base, k, n);
    }
    assert !InRange(l, pid, base, n);
    FreeFramesSome(vm1);
  }

  lemma FreeFramesSome(vm: Vm)
    ensures |FreeFrames(vm)| > 0 <==> exists f :: 0 <= f < |vm.frames.counts| && vm.frames.counts[f] == 0
  {
    if f :| 0 <= f < |vm.frames.counts| && vm.frames.counts[f] == 0 {
      assert f in FreeFrames(vm);
    } else {
      assert FreeFrames(vm) == {};
    }
  }

  /** The allocation loop makes all pages exactly if all fit and there are frames for
      them. */
  lemma {:induction false} CreateRangeExact(vm: Vm, pid: nat, base: nat, n: nat, tables: nat -> bool)
    requires Inv(vm) && pid in vm.spaces && IsBase(base) && n <= MAX_PAGES + 1
    ensures var (vm', made, status) := CreateRange(vm, pid, base, n, tables);
      && (status == Success <==> |FreeFrames(vm)| >= n && forall k: nat :: k < n ==> PageFits(vm, pid, base, k, tables))
      && (status == Success ==> RangeFits(vm, vm', pid, base, n))
  {
    hide Inv;
    hide PageAt;
    hide CreatePage;
    hide PageFits;
    hide FreeFrames;
    hide RangeMade;
    if n != 0 {
      hide RangeFits;
      CreateRangeExact(vm, pid, base, n - 1, tables);
      CreateRangeEffect(vm, pid, base, n - 1, tables);
      var (vm1, made, status) := CreateRange(vm, pid, base, n - 1, tables);
      if status == Success {
        SameProcesses(vm, vm1, pid, base, n - 1);
        NextPage(vm, vm1, pid, base, n - 1, tables);
        if CreatePage(vm1, PageAt(pid, base, n - 1), User, None, tables(n - 1)).1 == Success {
          RangeFitsStep(vm, vm1, pid, base, n - 1, tables(n - 1));
        }
      }
    }
  }

  lemma SameProcesses(vm: Vm, vm1: Vm, pid: nat, base: nat, n: nat)
    requires base < MEMORY && n <= MAX_PAGES + 1 && RangeMade(vm, vm1, pid, base, n)
    ensures vm1.spaces.Keys == vm.spaces.Keys
  {
  }

  /** new_pages succeeds if and only if base and length are page aligned, the length is at
      most 0xfff pages, the table has a free slot, every page of the region is a user page
      that is not mapped and whose table is there or can be had, and there are as many
      free frames as pages; and what it answers if not. */
  lemma NewPagesExact(vm: Vm, pid: nat, tab: Table, base: nat, len: int, tables: nat -> bool)
    requires Inv(vm) && pid in vm.spaces && base < 0x1_0000_0000 && TableShape(tab)
    ensures base < MEMORY
    ensures var outcome := NewPages(vm, pid, tab, base, len, tables).2;
      if base % 4096 != 0 || len < 0 || len % 4096 != 0 || len > 0xfff * 4096 then outcome == BadArgument
      else if tab.next == -1 then outcome == WornOut
      else if |FreeFrames(vm)| >= len / 4096 && forall k: nat :: k < len / 4096 ==> PageFits(vm, pid, base, k, tables) then outcome == Done
      else outcome.CreateFailed?
  {
    hide Inv;
    hide PageFits;
    hide FreeFrames;
    hide CreateRange;
    hide DestroyRange;
    hide ZeroRange;
    hide NextFree;
    assert MEMORY == 0x1_0000_0000;
    if base % 4096 == 0 && 0 <= len <= 0xfff * 4096 && len % 4096 == 0 && tab.next != -1 {
      CreateRangeExact(vm, pid, base, len / 4096, tables);
      NewPagesAllOrNothing(vm, pid, tab, base, len, tables);
    }
  }

  /** Slot `i` is the first that records a region at `base`. */
  predicate FirstAt(tab: Table, base: nat, i: nat) {
    && i < |tab.slots| && tab.slots[i] / 4096 * 4096 == base
    && forall j :: 0 <= j < i ==> tab.slots[j] / 4096 * 4096 != base
  }

  /** remove_pages succeeds if and only if the base is page aligned and the first slot
      with that base records at least one page; it answers that there is no region
      otherwise. */
  lemma RemovePagesExact(vm: Vm, pid: nat, tab: Table, base: nat)
    requires Inv(vm) && base < MEMORY && TableInv(vm, pid, tab)
    ensures var outcome := RemovePages(vm, pid, tab, base).2;
      if base % 4096 != 0 then outcome == BadArgument
      else if exists i: nat :: FirstAt(tab, base, i) && tab.slots[i] % 4096 > 0 then outcome == Done
      else outcome == NoRegion
  {
    hide Inv;
    hide DestroyRange;
    if base % 4096 == 0 {
      FindSlotFirst(tab.slots, base, 0);
      RemovePagesEffect(vm, pid, tab, base);
      var i := FindSlot(tab.slots, base, 0);
      hide FindSlot;
      forall j | 0 <= j < |tab.slots|
        ensures BaseOf(tab.slots[j]) == tab.slots[j] / 4096 * 4096
      {
      }
      if i >= 0 {
        assert FirstAt(tab, base, i);
      }
    }
  }
}

/** kern/vm/page.c as the kernel runs it: one frame allocator, physical memory, and
    page directories and tables that are arrays, all updated in place by nested
    loops.  Every method is proved against the function of `VirtualMemory` it
    implements. */
module MemorySystem {
  import opened Collections
  import opened FrameAllocator
  import opened PageDirectories
  import opened PageTables
  import opened VmInvariant
  import VM = VirtualMemory
  import VmFork
  import VmRefinement

  // ----- what the functions come to, case by case -----

  lemma DirSize(vm: VM.Vm, p: nat, i: nat)
    requires VmFork.Sound(vm) && p in vm.spaces && i < ENTRIES
    ensures |vm.spaces[p]| == ENTRIES && (VM.UserDir(vm, p, i) ==> KERNEL_DIRS <= i)
  {
    VmFork.UserDirs(vm, p, i);
  }

  lemma ChildReady(vm: VM.Vm, c: nat, i: nat)
    requires VmFork.Sound(vm) && c in vm.spaces && KERNEL_DIRS <= i < ENTRIES && VmFork.NoTablesFrom(vm, c, i)
    ensures |vm.spaces[c]| == ENTRIES
    ensures var vm' := vm.(spaces := InstallTable(vm.spaces, c, i));
      VmFork.Sound(vm') && VmFork.EmptyDir(vm', c, i)
  {
    VmFork.UserDirs(vm, c, i);
    VmFork.ChildTable(vm, c, i);
  }

  lemma SpawnReady(vm: VM.Vm, c: nat)
    requires Inv(vm) && c !in vm.spaces
    ensures var vm' := vm.(spaces := vm.spaces[c := InitSpace(vm.zeroPpn)]);
      Inv(vm') && VmFork.NoTablesFrom(vm', c, 0)
  {
    VmFork.SpawnInv(vm, c);
  }

  lemma DirReleasable(vm: VM.Vm, p: nat, i: nat)
    requires Inv(vm) && p in vm.spaces && i < ENTRIES && VM.UserDir(vm, p, i)
    ensures var vm1 := VM.ReleaseEntries(vm, p, i, ENTRIES);
      p in vm1.spaces && |vm1.spaces[p]| == ENTRIES && VM.UserDir(vm1, p, i)
  {
    VmFork.InvSound(vm);
    VmFork.UserDirs(vm, p, i);
    VmRefinement.ReleaseEntriesEffect(vm, p, i, ENTRIES);
    var vm1 := VM.ReleaseEntries(vm, p, i, ENTRIES);
    VmFork.InvSound(vm1);
    VmFork.UserDirs(vm1, p, i);
  }

  lemma CopyOnWriteIs(vm: VM.Vm, l: Loc)
    requires Valid(vm.frames) && |vm.mem| == |vm.frames.counts|
    requires 0 <= FrameId(Entry(vm.spaces, l).ppn) < |vm.mem| && vm.frames.counts[FrameId(Entry(vm.spaces, l).ppn)] > 1
    ensures var e := Entry(vm.spaces, l);
      var (frames, frame) := Allocate(vm.frames);
      var src := FrameId(e.ppn);
      if frame.None? then VM.CopyOnWrite(vm, l) == vm && frames == vm.frames
      else
        && frame.value < |vm.mem| && |frames.counts| == |vm.frames.counts| && frames.counts[src] > 0
        && var vm1 := VM.Put(VM.SetFrame(vm.(frames := frames), frame.value, vm.mem[src]), l, e.(ppn := USER_PPN + frame.value));
        && vm1.frames == frames
        && VM.CopyOnWrite(vm, l) == vm1.(frames := Frames(frames.counts[src := frames.counts[src] - 1], frames.next))
  {
    hide SetEntry;
    hide NextFree;
    AllocateExact(vm.frames);
  }

  lemma CowFaultIs(vm: VM.Vm, l: Loc)
    requires Inv(vm) && HasTable(vm.spaces, l) && Entry(vm.spaces, l).cow && !Entry(vm.spaces, l).zero
    ensures var e := Entry(vm.spaces, l);
      var vm1 := VM.Put(vm, l, e.(cow := false, rw := true));
      && VM.PageFault(vm, l) == (VM.CopyOnWrite(vm1, l), VM.Resumed)
      && FrameAllocator.Valid(vm1.frames) && |vm1.mem| == |vm1.frames.counts|
      && 0 <= FrameId(Entry(vm1.spaces, l).ppn) < |vm1.mem|
  {
    if l.dir < KERNEL_DIRS {
      KernelEntry(vm, l);
    }
    assert EntryOk(Entry(vm.spaces, l), |vm.frames.counts|, vm.zeroPpn);
    hide VM.CopyOnWrite;
    hide Conserved;
    hide Exclusive;
  }

  lemma CopyEntryIs(vm: VM.Vm, parent: nat, child: nat, i: nat, j: nat)
    requires VmFork.Sound(vm) && Mapped(Entry(vm.spaces, Loc(parent, i, j)))
    ensures var p, c := Loc(parent, i, j), Loc(child, i, j);
      var e := Entry(vm.spaces, p);
      var vm' := VM.CopyEntry(vm, parent, child, i, j);
      && IsFrameId(vm.frames, FrameId(e.ppn)) && FrameAllocator.Valid(vm.frames)
      && var (frames, err) := GetFrame(vm.frames, FrameId(e.ppn));
      && (err.KernelFrame? ==> frames == vm.frames && vm' == VM.Put(vm, c, e))
      && (err.TooManyOwners? ==>
            && frames == vm.frames && 0 <= FrameId(e.ppn) < |vm.mem|
            && var (frames1, frame) := Allocate(vm.frames);
            && (frame.None? ==> frames1 == vm.frames && vm' == VM.Put(vm, c, e))
            && (frame.Some? ==>
                  && frame.value < |vm.mem|
                  && vm' == VM.SetFrame(VM.Put(vm.(frames := frames1), c, e.(rw := true, cow := false, ppn := USER_PPN + frame.value)),
                                        frame.value, vm.mem[FrameId(e.ppn)])))
      && (!err.KernelFrame? && !err.TooManyOwners? && e.rw ==>
            var shared := e.(rw := false, cow := true);
            vm' == VM.Put(VM.Put(vm.(frames := frames), p, shared), c, shared))
      && (!err.KernelFrame? && !err.TooManyOwners? && !e.rw ==> vm' == VM.Put(vm.(frames := frames), c, e))
  {
    hide SetEntry;
    hide NextFree;
    MappedEntry(vm, Loc(parent, i, j));
    AllocateExact(vm.frames);
  }

  /** create_page once it has the frame it needs. */
  function Fill(vm: VM.Vm, l: Loc, t: VM.MemType, ref: Option<nat>, frame: Option<nat>, tableOk: bool): (VM.Vm, VM.Status)
    requires l.pid in vm.spaces && l.dir < |vm.spaces[l.pid]|
  {
    if !HasTable(vm.spaces, l) then
      if !tableOk then VM.GiveBack(vm, frame, VM.MallocFail) else Linked(vm, l, t, ref, frame)
    else if Entry(vm.spaces, l).present then VM.GiveBack(vm, frame, VM.PageAlreadyPresent)
    else (VM.Put(vm, l, VM.NewEntry(Entry(vm.spaces, l), t, vm.zeroPpn, ref, frame)), VM.Success)
  }

  /** ... and has to link a page table first. */
  function Linked(vm: VM.Vm, l: Loc, t: VM.MemType, ref: Option<nat>, frame: Option<nat>): (VM.Vm, VM.Status)
    requires l.pid in vm.spaces && l.dir < |vm.spaces[l.pid]|
  {
    var vm2 := vm.(spaces := InstallTable(vm.spaces, l.pid, l.dir));
    (VM.Put(vm2, l, VM.NewEntry(Entry(vm2.spaces, l), t, vm.zeroPpn, ref, frame)), VM.Success)
  }

  lemma CreatePageIs(vm: VM.Vm, l: Loc, t: VM.MemType, ref: Option<nat>, tableOk: bool)
    requires Inv(vm) && l.pid in vm.spaces && KERNEL_DIRS <= l.dir < ENTRIES && (ref.Some? ==> ref.value >= USER_PPN)
    ensures |vm.spaces[l.pid]| == ENTRIES && FrameAllocator.Valid(vm.frames)
    ensures var needed := !t.Bss? && ref.None?;
      var (frames, frame) := if needed then Allocate(vm.frames) else (vm.frames, None);
      && (needed && frame.None? ==> VM.CreatePage(vm, l, t, ref, tableOk) == (vm.(frames := frames), VM.NoFrames))
      && (needed && frame.Some? ==> frame.value < |frames.counts|)
      && (!needed || frame.Some? ==> VM.CreatePage(vm, l, t, ref, tableOk) == Fill(vm.(frames := frames), l, t, ref, frame, tableOk))
  {
    hide SetEntry;
    hide NextFree;
    hide Conserved;
    hide Exclusive;
    assert SpaceShape(vm.spaces[l.pid], vm.zeroPpn);
    AllocateExact(vm.frames);
  }

  class Paging {
    const allocator: Allocator
    const mem: array<VM.Page>
    var zeroPage: VM.Page
    const zeroPpn: nat
    const tables: Directories

    /** No two processes share a directory, and no two directory entries a table. */
    ghost predicate Ok()
      reads tables, tables.dirs
    {
      tables.Valid()
    }

    /** install_paging: no process yet; the frames hold whatever memory held. */
    constructor (contents: seq<VM.Page>, zeroPpn: nat)
      requires |contents| > 0 && zeroPpn < USER_PPN
      requires forall f :: 0 <= f < |contents| ==> |contents[f]| == PAGE_BYTES
      ensures fresh(allocator) && fresh(allocator.table) && fresh(mem) && fresh(tables) && tables.dirs == {} && tables.leaves == {}
      ensures Ok() && Initial(View()) && View().mem == contents && zeroPage == VM.ZeroFill()
    {
      allocator := new Allocator(|contents|);
      mem := new VM.Page[|contents|](i requires 0 <= i < |contents| => contents[i]);
      this.zeroPpn := zeroPpn;
      zeroPage := VM.ZeroFill();
      tables := new Directories();
      new;
      assert mem[..] == contents;
    }

    ghost function Repr(): set<object>
      reads tables
    {
      {allocator, allocator.table, mem, tables} + (set d | d in tables.dirs) + (set t | t in tables.leaves)
    }

    ghost function View(): (vm: VM.Vm)
      requires Ok()
      reads this, allocator, allocator.table, mem, tables, tables.dirs, tables.leaves
      ensures vm.spaces.Keys == tables.cr3.Keys && vm.zeroPpn == zeroPpn
      ensures |vm.mem| == mem.Length && |vm.frames.counts| == allocator.table.Length
    {
      VM.Vm(allocator.View(), mem[..], zeroPage, zeroPpn, tables.View())
    }

    // ----- the single stores -----

    method Lookup(l: Loc) returns (found: bool, e: Pte)
      requires Ok()
      ensures found == HasTable(View().spaces, l) && e == Entry(View().spaces, l)
    {
      found, e := tables.Lookup(l);
    }

    /** Writes the entry at `l`. */
    method Put(l: Loc, e: Pte)
      requires Ok()
      modifies Repr()
      ensures Ok() && Repr() == old(Repr())
      ensures View() == VM.Put(old(View()), l, e)
    {
      hide Directories.Valid;
      hide Directories.View;
      tables.Put(l, e);
    }

    method Install(pid: nat, dir: nat)
      requires Ok() && pid in View().spaces && dir < ENTRIES
      modifies Repr()
      ensures Ok()
      ensures forall o :: o in Repr() ==> o in old(Repr()) || fresh(o)
      ensures pid in old(View()).spaces && dir < |old(View()).spaces[pid]|
      ensures View() == old(View()).(spaces := InstallTable(old(View()).spaces, pid, dir))
    {
      hide Directories.Valid;
      hide Directories.View;
      hide InstallTable;
      tables.Install(pid, dir);
    }

    method Clear(pid: nat, dir: nat)
      requires Ok() && pid in View().spaces && dir < ENTRIES
      modifies Repr()
      ensures Ok() && Repr() == old(Repr())
      ensures pid in old(View()).spaces && dir < |old(View()).spaces[pid]|
      ensures View() == old(View()).(spaces := SetPde(old(View()).spaces, pid, dir, NO_PDE))
    {
      hide Directories.Valid;
      hide Directories.View;
      hide SetPde;
      tables.Clear(pid, dir);
    }

    /** The flags of a directory entry. */
    method Flags(pid: nat, dir: nat) returns (slot: Slot)
      requires Ok() && pid in View().spaces && dir < ENTRIES
      ensures pid in View().spaces && dir < |View().spaces[pid]|
      ensures var pde := View().spaces[pid][dir];
        slot.present == pde.present && slot.user == pde.user && slot.kernel == pde.kernel
    {
      slot := tables.Flags(pid, dir);
    }

    method Build(pid: nat)
      requires Ok() && pid !in View().spaces && zeroPpn < USER_PPN
      modifies Repr()
      ensures Ok()
      ensures forall o :: o in Repr() ==> o in old(Repr()) || fresh(o)
      ensures View() == old(View()).(spaces := old(View()).spaces[pid := InitSpace(zeroPpn)])
    {
      hide Directories.Valid;
      hide Directories.View;
      hide InitSpace;
      tables.Build(pid, zeroPpn);
    }

    method Drop(pid: nat)
      requires Ok()
      modifies Repr()
      ensures Ok() && Repr() == old(Repr())
      ensures View() == old(View()).(spaces := old(View()).spaces - {pid})
    {
      hide Directories.Valid;
      hide Directories.View;
      tables.Drop(pid);
    }

    method CopyFrame(f: nat, page: VM.Page)
      requires Ok() && f < mem.Length
      modifies Repr()
      ensures Ok() && Repr() == old(Repr())
      ensures View() == VM.SetFrame(old(View()), f, page)
    {
      hide Directories.Valid;
      hide Directories.View;
      mem[f] := page;
      assert mem[..] == old(mem[..])[f := page];
    }

    /** The contents of frame `f`. */
    method ReadFrame(f: nat) returns (page: VM.Page)
      requires Ok() && f < mem.Length
      ensures |View().mem| == mem.Length && page == View().mem[f]
    {
      page := mem[f];
    }

    method AllocateFrame() returns (r: Option<nat>)
      requires Ok() && FrameAllocator.Valid(View().frames)
      modifies Repr()
      ensures Ok() && Repr() == old(Repr())
      ensures r == Allocate(old(View()).frames).1 && View() == old(View()).(frames := Allocate(old(View()).frames).0)
    {
      hide Directories.Valid;
      hide Directories.View;
      hide FrameAllocator.Valid;
      hide Allocate;
      r := allocator.AllocateFrame();
    }

    method GetFrame(id: int) returns (r: FrameStatus)
      requires Ok() && IsFrameId(View().frames, id)
      modifies Repr()
      ensures Ok() && Repr() == old(Repr())
      ensures r == FrameAllocator.GetFrame(old(View()).frames, id).1
      ensures View() == old(View()).(frames := FrameAllocator.GetFrame(old(View()).frames, id).0)
    {
      hide Directories.Valid;
      hide Directories.View;
      hide FrameAllocator.GetFrame;
      r := allocator.Get(id);
    }

    method FreeFrame(id: int) returns (r: FrameStatus)
      requires Ok() && IsFrameId(View().frames, id)
      modifies Repr()
      ensures Ok() && Repr() == old(Repr())
      ensures r == FrameAllocator.FreeFrame(old(View()).frames, id).1
      ensures View() == old(View()).(frames := FrameAllocator.FreeFrame(old(View()).frames, id).0)
    {
      hide Directories.Valid;
      hide Directories.View;
      hide FrameAllocator.FreeFrame;
      r := allocator.Free(id);
    }

    /** copy_on_write takes one owner off the shared frame itself. */
    method LowerFrame(id: nat)
      requires Ok() && id < |View().frames.counts| && View().frames.counts[id] > 0
      modifies Repr()
      ensures Ok() && Repr() == old(Repr())
      ensures var fr := old(View()).frames;
        View() == old(View()).(frames := Frames(fr.counts[id := fr.counts[id] - 1], fr.next))
    {
      hide Directories.Valid;
      hide Directories.View;
      allocator.Lower(id);
    }

    /** The count of frame `id`. */
    method Count(id: nat) returns (n: nat)
      requires Ok() && id < |View().frames.counts|
      ensures n == View().frames.counts[id]
    {
      n := allocator.table[id];
    }

    // ----- create_page, destroy_page -----

    /** create_page */
    method CreatePage(l: Loc, t: VM.MemType, ref: Option<nat>, tableOk: bool) returns (status: VM.Status)
      requires Ok() && Inv(View()) && l.pid in View().spaces && l.dir < ENTRIES && l.idx < ENTRIES
      requires ref.Some? ==> ref.value < USER_PPN + mem.Length
      modifies Repr()
      ensures Ok()
      ensures forall o :: o in Repr() ==> o in old(Repr()) || fresh(o)
      ensures (View(), status) == VM.CreatePage(old(View()), l, t, ref, tableOk)
    {
      hide View;
      hide Ok;
      hide Repr;
      if l.dir < KERNEL_DIRS {
        return VM.InvalidArg;
      }
      if ref.Some? && ref.value < USER_PPN {
        return VM.InvalidArg;
      }
      CreatePageIs(View(), l, t, ref, tableOk);
      hide Inv;
      hide VM.CreatePage;
      hide Fill;
      hide Allocate;
      var frame: Option<nat> := None;
      if !t.Bss? && ref.None? {
        frame := AllocateFrame();
        if frame.None? {
          return VM.NoFrames;
        }
      }
      status := FillPage(l, t, ref, frame, tableOk);
    }

    method FillPage(l: Loc, t: VM.MemType, ref: Option<nat>, frame: Option<nat>, tableOk: bool) returns (status: VM.Status)
      requires Ok() && l.pid in View().spaces && l.dir < ENTRIES && |View().spaces[l.pid]| == ENTRIES
      requires frame.Some? ==> frame.value < |View().frames.counts|
      modifies Repr()
      ensures Ok()
      ensures forall o :: o in Repr() ==> o in old(Repr()) || fresh(o)
      ensures (View(), status) == Fill(old(View()), l, t, ref, frame, tableOk)
    {
      hide View;
      hide Ok;
      hide Repr;
      hide VM.Put;
      hide VM.GiveBack;
      hide HasTable;
      hide Linked;
      var found, e := Lookup(l);
      if !found {
        if !tableOk {
          status := GiveBack(frame, VM.MallocFail);
        } else {
          status := LinkPage(l, t, ref, frame);
        }
      } else if e.present {
        status := GiveBack(frame, VM.PageAlreadyPresent);
      } else {
        Put(l, VM.NewEntry(e, t, zeroPpn, ref, frame));
        status := VM.Success;
      }
    }

    method LinkPage(l: Loc, t: VM.MemType, ref: Option<nat>, frame: Option<nat>) returns (status: VM.Status)
      requires Ok() && l.pid in View().spaces && l.dir < ENTRIES && |View().spaces[l.pid]| == ENTRIES
      modifies Repr()
      ensures Ok()
      ensures forall o :: o in Repr() ==> o in old(Repr()) || fresh(o)
      ensures (View(), status) == Linked(old(View()), l, t, ref, frame)
    {
      hide View;
      hide Ok;
      hide Repr;
      hide VM.Put;
      hide InstallTable;
      Install(l.pid, l.dir);
      var _, e := Lookup(l);
      Put(l, VM.NewEntry(e, t, zeroPpn, ref, frame));
      return VM.Success;
    }

    method GiveBack(frame: Option<nat>, failure: VM.Status) returns (status: VM.Status)
      requires Ok() && (frame.Some? ==> frame.value < |View().frames.counts|)
      modifies Repr()
      ensures Ok() && Repr() == old(Repr())
      ensures (View(), status) == VM.GiveBack(old(View()), frame, failure)
    {
      hide View;
      hide Ok;
      hide Repr;
      var err := FreeFrame(if frame.Some? then frame.value else -1);
      return if err.Ok? then failure else VM.Panic;
    }

    /** destroy_page */
    method DestroyPage(l: Loc) returns (status: VM.Status)
      requires Ok() && Inv(View())
      modifies Repr()
      ensures Ok() && Repr() == old(Repr())
      ensures (View(), status) == VM.DestroyPage(old(View()), l)
    {
      hide View;
      hide Ok;
      hide Repr;
      hide SetEntry;
      hide Conserved;
      hide Exclusive;
      var found, e := Lookup(l);
      if !found {
        return VM.DirectoryNotPresent;
      }
      if !e.present {
        return VM.PageNotPresent;
      }
      if e.global || !e.user {
        return VM.KernelPage;
      }
      MappedEntry(View(), l);
      Put(l, NO_PTE);
      var err := FreeFrame(FrameId(e.ppn));
      return if err.Ok? then VM.Success else VM.Panic;
    }

    // ----- fork -----

    /** The inner loop body of copy_paging. */
    method CopyEntry(parent: nat, child: nat, i: nat, j: nat)
      requires Ok() && VmFork.Sound(View())
      modifies Repr()
      ensures Ok() && Repr() == old(Repr())
      ensures View() == VM.CopyEntry(old(View()), parent, child, i, j)
    {
      hide View;
      hide Ok;
      hide Repr;
      hide NextFree;
      hide SetEntry;
      var p, c := Loc(parent, i, j), Loc(child, i, j);
      hide VM.Put;
      hide VM.SetFrame;
      hide FrameAllocator.GetFrame;
      hide Allocate;
      var _, e := Lookup(p);
      if !e.present || !e.user {
        return;
      }
      CopyEntryIs(View(), parent, child, i, j);
      hide VM.CopyEntry;
      hide VmFork.Sound;
      var err := GetFrame(FrameId(e.ppn));
      if err.KernelFrame? {
        Put(c, e);
      } else if err.TooManyOwners? {
        CopySaturated(c, e);
      } else if e.rw {
        var shared := e.(rw := false, cow := true);
        Put(p, shared);
        Put(c, shared);
      } else {
        Put(c, e);
      }
    }

    /** The frame has too many owners: the child gets a copy, if there is a frame. */
    method CopySaturated(c: Loc, e: Pte)
      requires Ok() && FrameAllocator.Valid(View().frames) && 0 <= FrameId(e.ppn) < |View().mem|
      requires var frame := Allocate(View().frames).1;
        frame.Some? ==> frame.value < |View().mem|
      modifies Repr()
      ensures Ok() && Repr() == old(Repr())
      ensures var vm := old(View());
        var (frames, frame) := Allocate(vm.frames);
        View() == if frame.None? then VM.Put(vm.(frames := frames), c, e)
          else VM.SetFrame(VM.Put(vm.(frames := frames), c, e.(rw := true, cow := false, ppn := USER_PPN + frame.value)),
                           frame.value, vm.mem[FrameId(e.ppn)])
    {
      hide View;
      hide Ok;
      hide Repr;
      hide VM.Put;
      hide VM.SetFrame;
      hide Allocate;
      hide FrameAllocator.Valid;
      var frame := AllocateFrame();
      if frame.None? {
        Put(c, e);
      } else {
        var page := ReadFrame(FrameId(e.ppn));
        Put(c, e.(rw := true, cow := false, ppn := USER_PPN + frame.value));
        CopyFrame(frame.value, page);
      }
    }

    /** The inner loop of copy_paging: one page table. */
    method CopyTable(parent: nat, child: nat, i: nat)
      requires Ok() && VmFork.Sound(View()) && parent != child && KERNEL_DIRS <= i < ENTRIES && VmFork.EmptyDir(View(), child, i)
      modifies Repr()
      ensures Ok() && Repr() == old(Repr())
      ensures View() == VM.CopyEntries(old(View()), parent, child, i, ENTRIES)
    {
      hide View;
      hide Ok;
      hide Repr;
      hide VM.CopyEntry;
      hide VmFork.Sound;
      ghost var before := View();
      for j := 0 to ENTRIES
        invariant Ok() && Repr() == old(Repr())
        invariant View() == VM.CopyEntries(before, parent, child, i, j)
      {
        VmFork.CopyEntriesTables(before, parent, child, i, j);
        CopyEntry(parent, child, i, j);
      }
    }

    /** The body of copy_paging's outer loop: one directory. */
    method CopyDir(parent: nat, child: nat, i: nat)
      requires Ok() && VmFork.Sound(View()) && parent in View().spaces && child in View().spaces && parent != child && i < ENTRIES
      requires VmFork.NoTablesFrom(View(), child, i)
      modifies Repr()
      ensures Ok()
      ensures forall o :: o in Repr() ==> o in old(Repr()) || fresh(o)
      ensures View() == VM.CopyDir(old(View()), parent, child, i)
    {
      hide View;
      hide Ok;
      hide Repr;
      hide VM.CopyEntries;
      hide VmFork.Sound;
      hide VmFork.NoTablesFrom;
      hide VmFork.EmptyDir;
      hide InstallTable;
      DirSize(View(), parent, i);
      DirSize(View(), child, i);
      var slot := Flags(parent, i);
      if slot.present && slot.user {
        ChildReady(View(), child, i);
        Install(child, i);
        CopyTable(parent, child, i);
      }
    }

    /** copy_paging for a child whose address space init_paging just built; `dirs`
        is the number of directories whose page tables can be allocated. */
    method CopyPaging(parent: nat, child: nat, dirs: nat)
      requires Ok() && Inv(View()) && parent in View().spaces && child in View().spaces && parent != child && dirs <= ENTRIES
      requires VmFork.NoTablesFrom(View(), child, 0)
      modifies Repr()
      ensures Ok()
      ensures forall o :: o in Repr() ==> o in old(Repr()) || fresh(o)
      ensures View() == VM.CopyDirs(old(View()), parent, child, dirs)
    {
      hide View;
      hide Ok;
      hide Repr;
      hide VM.CopyDir;
      hide VmFork.Sound;
      hide VmFork.NoTablesFrom;
      hide Inv;
      ghost var before := View();
      for i := 0 to dirs
        invariant Ok()
        invariant forall o :: o in Repr() ==> o in old(Repr()) || fresh(o)
        invariant View() == VM.CopyDirs(before, parent, child, i)
      {
        VmFork.CopyDirsExact(before, parent, child, i, VmFork.Pos(i, 0));
        CopyDir(parent, child, i);
      }
    }

    /** The memory part of fork: init_paging, then copy_paging. */
    method Fork(parent: nat, child: nat, dirs: nat)
      requires Ok() && Inv(View()) && parent in View().spaces && child !in View().spaces && dirs <= ENTRIES
      modifies Repr()
      ensures Ok()
      ensures forall o :: o in Repr() ==> o in old(Repr()) || fresh(o)
      ensures View() == VM.Fork(old(View()), parent, child, dirs)
    {
      hide View;
      hide Ok;
      hide Repr;
      hide InitSpace;
      hide VmFork.NoTablesFrom;
      assert zeroPpn < USER_PPN;
      hide Inv;
      hide VM.CopyDirs;
      SpawnReady(View(), child);
      Build(child);
      CopyPaging(parent, child, dirs);
    }

    // ----- reset and teardown -----

    method ReleaseEntry(l: Loc)
      requires Ok() && Inv(View())
      modifies Repr()
      ensures Ok() && Repr() == old(Repr())
      ensures View() == VM.ReleaseEntry(old(View()), l)
    {
      hide View;
      hide Ok;
      hide Repr;
      hide SetEntry;
      hide Conserved;
      hide Exclusive;
      var _, e := Lookup(l);
      if e.present && !e.global && e.user && !e.zero {
        MappedEntry(View(), l);
        Put(l, NO_PTE);
        var err := FreeFrame(FrameId(e.ppn));
      }
    }

    /** The loop over the entries of one page table. */
    method ReleaseEntries(p: nat, i: nat)
      requires Ok() && Inv(View())
      modifies Repr()
      ensures Ok() && Repr() == old(Repr())
      ensures View() == VM.ReleaseEntries(old(View()), p, i, ENTRIES)
    {
      hide View;
      hide Ok;
      hide Repr;
      hide Inv;
      hide VM.ReleaseEntry;
      ghost var before := View();
      for j := 0 to ENTRIES
        invariant Ok() && Repr() == old(Repr())
        invariant View() == VM.ReleaseEntries(before, p, i, j)
      {
        VmRefinement.ReleaseEntriesEffect(before, p, i, j);
        ReleaseEntry(Loc(p, i, j));
      }
    }

    /** The body of reset_paging's outer loop: one directory. */
    method ResetDir(p: nat, i: nat)
      requires Ok() && Inv(View()) && p in View().spaces && i < ENTRIES
      modifies Repr()
      ensures Ok() && Repr() == old(Repr())
      ensures View() == VM.ResetDir(old(View()), p, i)
    {
      hide View;
      hide Ok;
      hide Repr;
      hide VM.ReleaseEntries;
      hide Inv;
      hide SetPde;
      var slot := Flags(p, i);
      if slot.present && slot.user {
        DirReleasable(View(), p, i);
        ReleaseEntries(p, i);
        slot := Flags(p, i);
        if !slot.kernel {
          Clear(p, i);
        }
      }
    }

    /** reset_paging */
    method ResetPaging(p: nat)
      requires Ok() && Inv(View()) && p in View().spaces
      modifies Repr()
      ensures Ok() && Repr() == old(Repr())
      ensures View() == VM.Reset(old(View()), p)
    {
      hide View;
      hide Ok;
      hide Repr;
      hide VM.ResetDir;
      hide Inv;
      ghost var before := View();
      for i := 0 to ENTRIES
        invariant Ok() && Repr() == old(Repr())
        invariant View() == VM.ResetDirs(before, p, i)
      {
        VmRefinement.ResetDirsEffect(before, p, i);
        ResetDir(p, i);
      }
    }

    /** destroy_paging */
    method DestroyPaging(p: nat)
      requires Ok() && Inv(View()) && p in View().spaces
      modifies Repr()
      ensures Ok() && Repr() == old(Repr())
      ensures View() == VM.Teardown(old(View()), p)
    {
      hide View;
      hide Ok;
      hide Repr;
      hide Inv;
      hide VM.ReleaseEntries;
      ghost var before := View();
      for i := 0 to ENTRIES
        invariant Ok() && Repr() == old(Repr())
        invariant View() == VM.ReleaseDirs(before, p, i)
      {
        VmRefinement.ReleaseDirsEffect(before, p, i);
        ReleaseEntries(p, i);
      }
      Drop(p);
    }

    // ----- faults -----

    /** copy_on_write */
    method CopyOnWrite(l: Loc)
      requires Ok() && FrameAllocator.Valid(View().frames) && |View().mem| == |View().frames.counts|
      requires 0 <= FrameId(Entry(View().spaces, l).ppn) < |View().mem|
      modifies Repr()
      ensures Ok() && Repr() == old(Repr())
      ensures View() == VM.CopyOnWrite(old(View()), l)
    {
      hide View;
      hide Ok;
      hide Repr;
      hide SetEntry;
      hide NextFree;
      hide FrameAllocator.Valid;
      var _, e := Lookup(l);
      var src := FrameId(e.ppn);
      var owners := Count(src);
      if owners <= 1 {
        return;
      }
      Unshare(l, e);
    }

    method Unshare(l: Loc, e: Pte)
      requires Ok() && FrameAllocator.Valid(View().frames) && |View().mem| == |View().frames.counts|
      requires e == Entry(View().spaces, l) && 0 <= FrameId(e.ppn) < |View().mem| && View().frames.counts[FrameId(e.ppn)] > 1
      modifies Repr()
      ensures Ok() && Repr() == old(Repr())
      ensures View() == VM.CopyOnWrite(old(View()), l)
    {
      hide View;
      hide Ok;
      hide Repr;
      hide VM.CopyOnWrite;
      hide VM.Put;
      hide VM.SetFrame;
      hide Allocate;
      hide FrameAllocator.Valid;
      hide Entry;
      CopyOnWriteIs(View(), l);
      var src := FrameId(e.ppn);
      var frame := AllocateFrame();
      if frame.None? {
        return;
      }
      var page := ReadFrame(src);
      CopyFrame(frame.value, page);
      Put(l, e.(ppn := USER_PPN + frame.value));
      LowerFrame(src);
    }

    /** The zero-fill branch of the fault handler. */
    method ZeroFault(l: Loc, e: Pte) returns (outcome: VM.Outcome)
      requires Ok() && Inv(View()) && HasTable(View().spaces, l) && e == Entry(View().spaces, l) && e.zero
      modifies Repr()
      ensures Ok() && Repr() == old(Repr())
      ensures (View(), outcome) == VM.PageFault(old(View()), l)
    {
      hide View;
      hide Ok;
      hide Repr;
      hide SetEntry;
      hide NextFree;
      hide Conserved;
      hide Exclusive;
      var frame := AllocateFrame();
      if frame.None? {
        return VM.Killed;
      }
      Put(l, e.(zero := false, rw := true, ppn := USER_PPN + frame.value));
      CopyFrame(frame.value, VM.ZeroFill());
      return VM.Resumed;
    }

    /** The copy-on-write branch: write access first, then the copy. */
    method CowFault(l: Loc, e: Pte)
      requires Ok() && Inv(View()) && HasTable(View().spaces, l) && e == Entry(View().spaces, l) && e.cow && !e.zero
      modifies Repr()
      ensures Ok() && Repr() == old(Repr())
      ensures (View(), VM.Resumed) == VM.PageFault(old(View()), l)
    {
      hide View;
      hide Ok;
      hide Repr;
      hide VM.CopyOnWrite;
      hide VM.Put;
      CowFaultIs(View(), l);
      hide Inv;
      hide VM.PageFault;
      Put(l, e.(cow := false, rw := true));
      CopyOnWrite(l);
    }

    /** The fault handler's zero-fill and copy-on-write branches. */
    method PageFault(l: Loc) returns (outcome: VM.Outcome)
      requires Ok() && Inv(View())
      modifies Repr()
      ensures Ok() && Repr() == old(Repr())
      ensures (View(), outcome) == VM.PageFault(old(View()), l)
    {
      hide View;
      hide Ok;
      hide Repr;
      hide Inv;
      hide VM.CopyOnWrite;
      hide VM.Put;
      hide HasTable;
      hide Allocate;
      var found, e := Lookup(l);
      if !found {
        return VM.Killed;
      }
      if e.zero {
        outcome := ZeroFault(l, e);
      } else if e.cow {
        CowFault(l, e);
        outcome := VM.Resumed;
      } else {
        outcome := VM.Killed;
      }
    }
  }
}

/** What every paging operation keeps: the counts are the numbers of page table
    entries, a shared frame is never writable, and the kernel half of every
    address space is untouched. */
module VmInvariant {
  import opened Collections
  import opened FrameAllocator
  import opened PageTables
  import opened VirtualMemory

  /** Entries of user directories: absent, a zero page, or a mapping of a user
      frame. */
  predicate EntryOk(e: Pte, frames: nat, zeroPpn: nat) {
    e == NO_PTE ||
    (e.present && e.user && !e.global &&
     if e.zero then e.ppn == zeroPpn && e.rw && !e.cow
     else USER_PPN <= e.ppn < USER_PPN + frames && !(e.rw && e.cow))
  }

  ghost predicate EntriesOk(ss: Spaces, frames: nat, zeroPpn: nat) {
    forall l: Loc :: l.dir >= KERNEL_DIRS ==> EntryOk(Entry(ss, l), frames, zeroPpn)
  }

  /** Conservation: frame counts are numbers of owners. */
  ghost predicate Conserved(counts: seq<nat>, ss: Spaces) {
    forall f :: 0 <= f < |counts| ==> counts[f] == |Owners(ss, f)|
  }

  /** A writable entry is the only owner of its frame. */
  ghost predicate Exclusive(counts: seq<nat>, ss: Spaces) {
    forall l: Loc :: Owning(Entry(ss, l)) && Entry(ss, l).rw && FrameId(Entry(ss, l).ppn) < |counts| ==>
      counts[FrameId(Entry(ss, l).ppn)] <= 1
  }

  /** All owners of a frame map it at the same virtual page. */
  ghost predicate SamePage(ss: Spaces) {
    forall l: Loc, m: Loc :: Owning(Entry(ss, l)) && Owning(Entry(ss, m)) && Entry(ss, l).ppn == Entry(ss, m).ppn ==>
      l.dir == m.dir && l.idx == m.idx
  }

  ghost predicate Memory(vm: Vm) {
    && |vm.mem| == |vm.frames.counts|
    && (forall f :: 0 <= f < |vm.mem| ==> |vm.mem[f]| == PAGE_BYTES)
    && |vm.zeroPage| == PAGE_BYTES
    && vm.zeroPpn < USER_PPN
  }

  ghost predicate Tables(vm: Vm) {
    && Shaped(vm.spaces, vm.zeroPpn)
    && EntriesOk(vm.spaces, |vm.frames.counts|, vm.zeroPpn)
  }

  ghost predicate Inv(vm: Vm) {
    && Valid(vm.frames)
    && Memory(vm)
    && Tables(vm)
    && Conserved(vm.frames.counts, vm.spaces)
    && Exclusive(vm.frames.counts, vm.spaces)
    && SamePage(vm.spaces)
  }

  /** The state after install_paging: no process, no owner, arbitrary memory. */
  ghost predicate Initial(vm: Vm) {
    && |vm.frames.counts| > 0
    && (forall f :: 0 <= f < |vm.frames.counts| ==> vm.frames.counts[f] == 0)
    && vm.frames.next == 0
    && Memory(vm)
    && vm.spaces == map[]
  }

  lemma InitialInv(vm: Vm)
    requires Initial(vm)
    ensures Inv(vm)
  {
    forall f | 0 <= f < |vm.frames.counts| ensures Owners(vm.spaces, f) == {} {
      assert forall l :: l in Owners(vm.spaces, f) ==> l.pid in vm.spaces;
    }
  }

  // ----- what Tables says about single entries -----

  /** Outside the user directories nothing is mapped for users. */
  lemma KernelEntry(vm: Vm, l: Loc)
    requires Memory(vm) && Tables(vm) && l.dir < KERNEL_DIRS
    ensures !Mapped(Entry(vm.spaces, l)) && !Entry(vm.spaces, l).zero && !Entry(vm.spaces, l).cow
  {
    if HasTable(vm.spaces, l) {
      KernelHalfIdentity(vm.spaces, l, vm.zeroPpn);
      assert vm.spaces[l.pid][l.dir] == KernelPde(l.dir, vm.zeroPpn);
    }
  }

  /** A mapped entry is in a user directory, and owns a frame unless it is a
      zero page. */
  lemma MappedEntry(vm: Vm, l: Loc)
    requires Memory(vm) && Tables(vm) && Mapped(Entry(vm.spaces, l))
    ensures HasTable(vm.spaces, l) && l.dir >= KERNEL_DIRS
    ensures EntryOk(Entry(vm.spaces, l), |vm.frames.counts|, vm.zeroPpn)
    ensures !Entry(vm.spaces, l).zero ==> Owning(Entry(vm.spaces, l)) && 0 <= FrameId(Entry(vm.spaces, l).ppn) < |vm.mem|
  {
    if l.dir < KERNEL_DIRS {
      KernelEntry(vm, l);
    }
  }

  /** The directory of a page is a user directory exactly when it has a table. */
  lemma UserTable(vm: Vm, l: Loc)
    requires Tables(vm) && HasTable(vm.spaces, l) && l.dir >= KERNEL_DIRS
    ensures vm.spaces[l.pid][l.dir].user && vm.spaces[l.pid][l.dir].rw && !vm.spaces[l.pid][l.dir].kernel
  {
    assert SpaceShape(vm.spaces[l.pid], vm.zeroPpn);
  }

  /** The count of a frame with an owner is at least 1. */
  lemma OwnerCounted(vm: Vm, l: Loc)
    requires Inv(vm) && Owning(Entry(vm.spaces, l))
    ensures 0 <= FrameId(Entry(vm.spaces, l).ppn) < |vm.mem|
    ensures vm.frames.counts[FrameId(Entry(vm.spaces, l).ppn)] >= 1
  {
    MappedEntry(vm, l);
    var f := FrameId(Entry(vm.spaces, l).ppn);
    OwnersMember(vm.spaces, f, l);
    assert Owners(vm.spaces, f) != {};
  }

  /** Two owners of one frame make its count at least 2. */
  lemma TwoOwnersCounted(vm: Vm, l: Loc, m: Loc)
    requires Inv(vm) && l != m
    requires Owning(Entry(vm.spaces, l)) && Owning(Entry(vm.spaces, m)) && Entry(vm.spaces, l).ppn == Entry(vm.spaces, m).ppn
    ensures 0 <= FrameId(Entry(vm.spaces, l).ppn) < |vm.mem|
    ensures vm.frames.counts[FrameId(Entry(vm.spaces, l).ppn)] >= 2
  {
    MappedEntry(vm, l);
    var f := FrameId(Entry(vm.spaces, l).ppn);
    OwnersMember(vm.spaces, f, l);
    OwnersMember(vm.spaces, f, m);
    var os := Owners(vm.spaces, f);
    assert {l, m} <= os;
    assert os == {l, m} + (os - {l, m});
    assert |os| == |{l, m}| + |os - {l, m}|;
  }

  // ----- one entry changes -----

  /** The entries differ at `l` only. */
  ghost predicate Differ(ss: Spaces, ss': Spaces, l: Loc) {
    forall m :: m != l ==> Entry(ss', m) == Entry(ss, m)
  }

  lemma PutDiffers(vm: Vm, l: Loc, e: Pte)
    requires HasTable(vm.spaces, l)
    ensures Differ(vm.spaces, Put(vm, l, e).spaces, l)
    ensures Entry(Put(vm, l, e).spaces, l) == e
    ensures forall m :: HasTable(Put(vm, l, e).spaces, m) <==> HasTable(vm.spaces, m)
  {
    SetEntryElsewhere(vm.spaces, l, e);
  }

  lemma PutTables(vm: Vm, l: Loc, e: Pte)
    requires Tables(vm) && HasTable(vm.spaces, l) && l.dir >= KERNEL_DIRS
    requires EntryOk(e, |vm.frames.counts|, vm.zeroPpn)
    ensures Tables(Put(vm, l, e))
  {
    PutDiffers(vm, l, e);
    SetEntryShape(vm.spaces, l, e, vm.zeroPpn);
    var ss := Put(vm, l, e).spaces;
    forall m: Loc | m.dir >= KERNEL_DIRS ensures EntryOk(Entry(ss, m), |vm.frames.counts|, vm.zeroPpn) {
      assert EntryOk(Entry(vm.spaces, m), |vm.frames.counts|, vm.zeroPpn);
    }
  }

  /** How much entry `e` adds to the count of frame `f`. */
  function Weight(e: Pte, f: nat): nat {
    if Owns(e, f) then 1 else 0
  }

  /** Counts that follow a change of one entry stay conserved. */
  lemma ConservedUpdate(counts: seq<nat>, counts': seq<nat>, ss: Spaces, ss': Spaces, l: Loc)
    requires Conserved(counts, ss) && Differ(ss, ss', l) && |counts'| == |counts|
    requires forall f :: 0 <= f < |counts| ==>
      counts'[f] == counts[f] - Weight(Entry(ss, l), f) + Weight(Entry(ss', l), f)
    ensures Conserved(counts', ss')
  {
    forall f | 0 <= f < |counts| ensures counts'[f] == |Owners(ss', f)| {
      OwnersAfterUpdate(ss, ss', l, f);
    }
  }

  /** A frame nobody counts is mapped nowhere. */
  lemma UncountedUnmapped(vm: Vm, f: nat)
    requires Inv(vm) && f < |vm.frames.counts| && vm.frames.counts[f] == 0
    ensures forall m :: !Owns(Entry(vm.spaces, m), f)
  {
    forall m ensures !Owns(Entry(vm.spaces, m), f) {
      OwnersMember(vm.spaces, f, m);
    }
  }

  /** Entry `e` may join the owners of its frame: they all sit at the same
      virtual page, and neither they nor `e` may write. */
  ghost predicate MayJoin(ss: Spaces, l: Loc, e: Pte) {
    forall m :: m != l && Owning(Entry(ss, m)) && Entry(ss, m).ppn == e.ppn ==>
      !Entry(ss, m).rw && !e.rw && m.dir == l.dir && m.idx == l.idx
  }

  /** The work horse: one entry changes, the counts follow, and the new entry
      joins the owners of its frame properly. */
  lemma InvUpdate(vm: Vm, vm': Vm, l: Loc)
    requires Inv(vm)
    requires Valid(vm'.frames) && Memory(vm') && Tables(vm')
    requires |vm'.frames.counts| == |vm.frames.counts|
    requires Differ(vm.spaces, vm'.spaces, l)
    requires forall f :: 0 <= f < |vm.frames.counts| ==>
      vm'.frames.counts[f] == vm.frames.counts[f] - Weight(Entry(vm.spaces, l), f) + Weight(Entry(vm'.spaces, l), f)
    requires Owning(Entry(vm'.spaces, l)) ==> MayJoin(vm.spaces, l, Entry(vm'.spaces, l))
    ensures Inv(vm')
  {
    var ss, ss' := vm.spaces, vm'.spaces;
    var e := Entry(ss', l);
    ConservedUpdate(vm.frames.counts, vm'.frames.counts, ss, ss', l);
    forall m: Loc | Owning(Entry(ss', m)) && Entry(ss', m).rw && FrameId(Entry(ss', m).ppn) < |vm'.frames.counts|
      ensures vm'.frames.counts[FrameId(Entry(ss', m).ppn)] <= 1
    {
      var f := FrameId(Entry(ss', m).ppn);
      if m == l {
        SoleOwner(vm', l, f);
      } else {
        assert Entry(ss, m) == Entry(ss', m);
        assert !Owns(e, f);
      }
    }
  }

  /** The only entry on a frame gives it at most one owner. */
  lemma SoleOwner(vm: Vm, l: Loc, f: nat)
    requires f < |vm.frames.counts| && Conserved(vm.frames.counts, vm.spaces)
    requires forall m :: m != l ==> !Owns(Entry(vm.spaces, m), f)
    ensures vm.frames.counts[f] <= 1
  {
    var os := Owners(vm.spaces, f);
    forall m | m in os ensures m == l {
      OwnersMember(vm.spaces, f, m);
    }
    if l in os {
      assert os == {l};
    } else {
      assert os == {};
    }
  }

  // ----- the operations keep the invariant -----

  /** Same page tables and counts, other memory contents. */
  lemma MemoryChangeInv(vm: Vm, vm': Vm)
    requires Inv(vm) && Memory(vm')
    requires vm' == vm.(mem := vm'.mem, zeroPage := vm'.zeroPage)
    ensures Inv(vm')
  {
  }

  lemma SetFrameInv(vm: Vm, f: nat, p: Page)
    requires Inv(vm) && |p| == PAGE_BYTES
    ensures Inv(SetFrame(vm, f, p))
  {
    MemoryChangeInv(vm, SetFrame(vm, f, p));
  }

  lemma StoreInv(vm: Vm, l: Loc, off: nat, v: bv8)
    requires Inv(vm)
    ensures Inv(Store(vm, l, off, v))
  {
    MemoryChangeInv(vm, Store(vm, l, off, v));
  }

  /** Clearing an owning entry and freeing its frame. */
  lemma ClearInv(vm: Vm, l: Loc)
    requires Inv(vm) && Owning(Entry(vm.spaces, l))
    ensures FreeFrame(vm.frames, FrameId(Entry(vm.spaces, l).ppn)).1 == Ok
    ensures Inv(Put(vm, l, NO_PTE).(frames := FreeFrame(vm.frames, FrameId(Entry(vm.spaces, l).ppn)).0))
  {
    OwnerCounted(vm, l);
    MappedEntry(vm, l);
    var id := FrameId(Entry(vm.spaces, l).ppn);
    FreeFrameValid(vm.frames, id);
    PutTables(vm, l, NO_PTE);
    PutDiffers(vm, l, NO_PTE);
    InvUpdate(vm, Put(vm, l, NO_PTE).(frames := FreeFrame(vm.frames, id).0), l);
  }

  /** Clearing a zero-page entry. */
  lemma ClearZeroInv(vm: Vm, l: Loc)
    requires Inv(vm) && Mapped(Entry(vm.spaces, l)) && Entry(vm.spaces, l).zero
    ensures Inv(Put(vm, l, NO_PTE))
  {
    MappedEntry(vm, l);
    PutTables(vm, l, NO_PTE);
    PutDiffers(vm, l, NO_PTE);
    InvUpdate(vm, Put(vm, l, NO_PTE), l);
  }

  lemma ReleaseEntryInv(vm: Vm, l: Loc)
    requires Inv(vm)
    ensures Inv(ReleaseEntry(vm, l))
  {
    var e := Entry(vm.spaces, l);
    if Mapped(e) && !e.global && !e.zero {
      MappedEntry(vm, l);
      ClearInv(vm, l);
    }
  }

  lemma DestroyPageInv(vm: Vm, l: Loc)
    requires Inv(vm)
    ensures Inv(DestroyPage(vm, l).0)
  {
    var e := Entry(vm.spaces, l);
    if Mapped(e) && !e.global {
      MappedEntry(vm, l);
      if e.zero {
        ClearZeroInv(vm, l);
        assert FreeFrame(vm.frames, FrameId(e.ppn)).0 == vm.frames;
      } else {
        ClearInv(vm, l);
      }
    }
  }

  /** Mapping a fresh frame at an entry that owned nothing. */
  lemma MapFreshInv(vm: Vm, l: Loc, e: Pte)
    requires Inv(vm) && vm.frames.next != -1
    requires HasTable(vm.spaces, l) && l.dir >= KERNEL_DIRS && !Owning(Entry(vm.spaces, l))
    requires Owns(e, vm.frames.next) && EntryOk(e, |vm.frames.counts|, vm.zeroPpn)
    ensures Inv(Put(vm, l, e).(frames := Allocate(vm.frames).0))
  {
    var f := vm.frames.next;
    AllocateExact(vm.frames);
    UncountedUnmapped(vm, f);
    PutTables(vm, l, e);
    PutDiffers(vm, l, e);
    InvUpdate(vm, Put(vm, l, e).(frames := Allocate(vm.frames).0), l);
  }

  /** Replacing an entry by one that owns the same frames, or none. */
  lemma ReplaceInv(vm: Vm, l: Loc, e: Pte)
    requires Inv(vm) && HasTable(vm.spaces, l) && l.dir >= KERNEL_DIRS
    requires EntryOk(e, |vm.frames.counts|, vm.zeroPpn)
    requires Owning(e) || Owning(Entry(vm.spaces, l)) ==>
      Owning(e) && Owning(Entry(vm.spaces, l)) && e.ppn == Entry(vm.spaces, l).ppn
      && (e.rw ==> vm.frames.counts[FrameId(e.ppn)] <= 1)
    ensures Inv(Put(vm, l, e))
  {
    PutTables(vm, l, e);
    PutDiffers(vm, l, e);
    if Owning(e) {
      forall m | m != l && Owning(Entry(vm.spaces, m)) && Entry(vm.spaces, m).ppn == e.ppn
        ensures !Entry(vm.spaces, m).rw && !e.rw && m.dir == l.dir && m.idx == l.idx
      {
        TwoOwnersCounted(vm, l, m);
        assert !Entry(vm.spaces, m).rw;
      }
    }
    InvUpdate(vm, Put(vm, l, e), l);
  }

  lemma InstallTableInv(vm: Vm, p: nat, i: nat)
    requires Inv(vm) && p in vm.spaces && KERNEL_DIRS <= i < ENTRIES && !vm.spaces[p][i].present
    ensures Inv(vm.(spaces := InstallTable(vm.spaces, p, i)))
  {
    InstallTableEntries(vm.spaces, p, i);
    InstallTableShape(vm.spaces, p, i, vm.zeroPpn);
    SameEntriesInv(vm, vm.(spaces := InstallTable(vm.spaces, p, i)));
  }

  /** Only entries that own nothing changed, to entries that own nothing. */
  lemma SameEntriesInv(vm: Vm, vm': Vm)
    requires Inv(vm) && Tables(vm')
    requires vm' == vm.(spaces := vm'.spaces)
    requires forall m ::
      Entry(vm'.spaces, m) == Entry(vm.spaces, m) || (!Owning(Entry(vm'.spaces, m)) && !Owning(Entry(vm.spaces, m)))
    ensures Inv(vm')
  {
    forall f | 0 <= f < |vm.frames.counts| ensures vm.frames.counts[f] == |Owners(vm'.spaces, f)| {
      OwnersUnchanged(vm.spaces, vm'.spaces, f);
    }
    forall m | Owning(Entry(vm'.spaces, m)) ensures Entry(vm'.spaces, m) == Entry(vm.spaces, m) {
      assert Entry(vm'.spaces, m) == Entry(vm.spaces, m) || !Owning(Entry(vm'.spaces, m));
    }
  }

  // ----- create_page -----

  /** The frames come back as they were, up to the position of the cursor. */
  lemma GiveBackInv(vm: Vm, needed: bool)
    requires Inv(vm) && (needed ==> vm.frames.next != -1)
    ensures var (frames, frame) := if needed then Allocate(vm.frames) else (vm.frames, None);
      forall status ::
        var r := GiveBack(vm.(frames := frames), frame, status);
        && Inv(r.0)
        && r.0 == vm.(frames := r.0.frames)
        && r.0.frames.counts == vm.frames.counts
        && r.1 == if needed then status else Panic
  {
    if needed {
      AllocateThenFree(vm.frames);
    }
  }

  /** A reference frame that create_page would map without counting it. */
  predicate Uncounted(vm: Vm, t: MemType, ref: Option<nat>) {
    !t.Bss? && ref.Some? && ref.value >= USER_PPN
  }

  /** The entry create_page writes for a page of type `t`. */
  function FreshEntry(vm: Vm, t: MemType): Pte {
    NewEntry(NO_PTE, t, vm.zeroPpn, None, if !t.Bss? && vm.frames.next >= 0 then Some(vm.frames.next) else None)
  }

  /** `vm'` is `vm` with one more page of type `t`, at `l`. */
  ghost predicate PageAdded(vm: Vm, vm': Vm, l: Loc, t: MemType) {
    && HasTable(vm'.spaces, l)
    && !Mapped(Entry(vm.spaces, l))
    && vm'.spaces.Keys == vm.spaces.Keys
    && Differ(vm.spaces, vm'.spaces, l)
    && vm'.mem == vm.mem && vm'.zeroPage == vm.zeroPage && vm'.zeroPpn == vm.zeroPpn
    && Entry(vm'.spaces, l) == FreshEntry(vm, t)
    && (!t.Bss? ==> 0 <= vm.frames.next < |vm.frames.counts| && vm.frames.counts[vm.frames.next] == 0)
  }

  lemma MapNewInv(vm: Vm, l: Loc, t: MemType)
    requires Inv(vm) && HasTable(vm.spaces, l) && l.dir >= KERNEL_DIRS && !Entry(vm.spaces, l).present
    requires !t.Bss? ==> vm.frames.next != -1
    ensures Entry(vm.spaces, l) == NO_PTE
    ensures var vm' := Put(vm, l, FreshEntry(vm, t)).(frames := if t.Bss? then vm.frames else Allocate(vm.frames).0);
      Inv(vm') && PageAdded(vm, vm', l, t)
  {
    assert EntryOk(Entry(vm.spaces, l), |vm.frames.counts|, vm.zeroPpn);
    var e := FreshEntry(vm, t);
    PutDiffers(vm, l, e);
    if t.Bss? {
      ReplaceInv(vm, l, e);
    } else {
      MapFreshInv(vm, l, e);
    }
  }

  /** create_page's work once a page table is there. */
  lemma CreateInTable(vm: Vm, l: Loc, t: MemType, ref: Option<nat>, tableOk: bool)
    requires Inv(vm) && HasTable(vm.spaces, l) && l.dir >= KERNEL_DIRS && !Uncounted(vm, t, ref)
    ensures var (vm', status) := CreatePage(vm, l, t, ref, tableOk);
      && Inv(vm')
      && (status != Success ==> vm' == vm.(frames := vm'.frames) && vm'.frames.counts == vm.frames.counts)
      && (status == Success ==> PageAdded(vm, vm', l, t))
  {
    hide Conserved;
    hide Exclusive;
    hide SamePage;
    hide SetEntry;
    var needed := !t.Bss? && ref.None?;
    if !(ref.Some? && ref.value < USER_PPN) && (needed ==> vm.frames.next != -1) {
      if Entry(vm.spaces, l).present {
        GiveBackInv(vm, needed);
      } else {
        MapNewInv(vm, l, t);
      }
    }
  }

  /** Without a reference frame create_page keeps the invariant.  It maps one
      page, with one fresh frame or the zero frame, or changes no mapping and no
      count at all. */
  lemma CreatePageInv(vm: Vm, l: Loc, t: MemType, ref: Option<nat>, tableOk: bool)
    requires Inv(vm) && l.pid in vm.spaces && l.dir < ENTRIES && l.idx < ENTRIES
    requires !Uncounted(vm, t, ref)
    ensures var (vm', status) := CreatePage(vm, l, t, ref, tableOk);
      && Inv(vm')
      && (status != Success ==> vm' == vm.(frames := vm'.frames) && vm'.frames.counts == vm.frames.counts)
      && (status == Success ==> PageAdded(vm, vm', l, t))
  {
    hide Conserved;
    hide Exclusive;
    hide SamePage;
    hide SetEntry;
    hide NextFree;
    var needed := !t.Bss? && ref.None?;
    if l.dir < KERNEL_DIRS || (ref.Some? && ref.value < USER_PPN) || (needed && vm.frames.next == -1) {
    } else if HasTable(vm.spaces, l) {
      CreateInTable(vm, l, t, ref, tableOk);
    } else {
      CreateWithTable(vm, l, t, ref, tableOk);
    }
  }

  /** create_page's work when the page table is missing. */
  lemma CreateWithTable(vm: Vm, l: Loc, t: MemType, ref: Option<nat>, tableOk: bool)
    requires Inv(vm) && l.pid in vm.spaces && KERNEL_DIRS <= l.dir < ENTRIES && l.idx < ENTRIES
    requires !HasTable(vm.spaces, l) && !Uncounted(vm, t, ref)
    requires !(ref.Some? && ref.value < USER_PPN) && (!t.Bss? && ref.None? ==> vm.frames.next != -1)
    ensures var (vm', status) := CreatePage(vm, l, t, ref, tableOk);
      && Inv(vm')
      && (status != Success ==> vm' == vm.(frames := vm'.frames) && vm'.frames.counts == vm.frames.counts)
      && (status == Success ==> PageAdded(vm, vm', l, t))
  {
    hide Conserved;
    hide Exclusive;
    hide SamePage;
    hide SetEntry;
    hide NextFree;
    hide EntriesOk;
    assert SpaceShape(vm.spaces[l.pid], vm.zeroPpn);
    if tableOk {
      InstallTableInv(vm, l.pid, l.dir);
      InstallTableEntries(vm.spaces, l.pid, l.dir);
      MapNewInv(vm.(spaces := InstallTable(vm.spaces, l.pid, l.dir)), l, t);
    } else {
      GiveBackInv(vm, !t.Bss? && ref.None?);
    }
  }

  /** When create_page succeeds: a user page that is not mapped yet, a free frame
      unless the page is zero-filled on demand, and a page table if one is
      missing. */
  lemma CreatePageSucceeds(vm: Vm, l: Loc, t: MemType, tableOk: bool)
    requires Inv(vm) && l.pid in vm.spaces && l.dir < ENTRIES && l.idx < ENTRIES
    ensures CreatePage(vm, l, t, None, tableOk).1 == Success <==>
      && l.dir >= KERNEL_DIRS
      && !Mapped(Entry(vm.spaces, l))
      && (t.Bss? || exists f :: 0 <= f < |vm.frames.counts| && vm.frames.counts[f] == 0)
      && (HasTable(vm.spaces, l) || tableOk)
  {
    AllocateExact(vm.frames);
    if l.dir >= KERNEL_DIRS && (t.Bss? || vm.frames.next != -1) {
      assert SpaceShape(vm.spaces[l.pid], vm.zeroPpn);
      assert EntryOk(Entry(vm.spaces, l), |vm.frames.counts|, vm.zeroPpn);
      GiveBackInv(vm, !t.Bss?);
    }
  }

  /** The first write to a new page is carried out exactly if the page is for data, zeroes,
      heap, stack or a region of new_pages; code and constants refuse it, and nothing
      changes.  What is written is what the page then holds there. */
  lemma NewPageWrite(vm: Vm, l: Loc, t: MemType, tableOk: bool, off: nat, v: bv8)
    requires Inv(vm) && l.pid in vm.spaces && l.dir < ENTRIES && l.idx < ENTRIES && off < PAGE_BYTES
    requires CreatePage(vm, l, t, None, tableOk).1 == Success
    ensures var vm1 := CreatePage(vm, l, t, None, tableOk).0;
      var (vm2, written) := UserWrite(vm1, l, off, v);
      && (written <==> t.Data? || t.Bss? || t.Heap? || t.Stack? || t.User?) && (UserWritable(vm1, l) <==> written)
      && (!written ==> vm2 == vm1)
      && (written ==>
            && vm2.spaces == vm1.spaces && |Contents(vm1, Entry(vm1.spaces, l))| == PAGE_BYTES
            && Contents(vm2, Entry(vm1.spaces, l)) == Contents(vm1, Entry(vm1.spaces, l))[off := v])
  {
    hide CreatePage;
    hide Conserved;
    hide Exclusive;
    hide SamePage;
    CreatePageInv(vm, l, t, None, tableOk);
    var vm1 := CreatePage(vm, l, t, None, tableOk).0;
    MappedEntry(vm1, l);
    assert SpaceShape(vm1.spaces[l.pid], vm1.zeroPpn);
  }

  /** When create_page accepts a reference frame: a user page that is not mapped, and
      a page table if one is missing. */
  lemma ReferenceFrameSucceeds(vm: Vm, l: Loc, t: MemType, ref: Option<nat>, tableOk: bool)
    requires Inv(vm) && l.pid in vm.spaces && l.dir < ENTRIES && l.idx < ENTRIES && Uncounted(vm, t, ref)
    ensures CreatePage(vm, l, t, ref, tableOk).1 == Success <==>
      l.dir >= KERNEL_DIRS && if HasTable(vm.spaces, l) then !Entry(vm.spaces, l).present else tableOk
  {
    hide Conserved;
    hide Exclusive;
    hide SamePage;
    hide SetEntry;
    hide NextFree;
    assert SpaceShape(vm.spaces[l.pid], vm.zeroPpn);
  }

  /** With a reference frame the new mapping is not counted: conservation is lost
      exactly when the call maps a user frame to a page that was not mapped and whose
      page table is there or can be had. */
  lemma ReferenceFrameUncounted(vm: Vm, l: Loc, t: MemType, ref: Option<nat>, tableOk: bool)
    requires Inv(vm) && l.pid in vm.spaces && l.dir < ENTRIES && l.idx < ENTRIES
    requires ref.Some? ==> ref.value < USER_PPN + |vm.frames.counts|
    ensures var (vm', status) := CreatePage(vm, l, t, ref, tableOk);
      Conserved(vm'.frames.counts, vm'.spaces) <==>
        !(Uncounted(vm, t, ref) && l.dir >= KERNEL_DIRS && if HasTable(vm.spaces, l) then !Entry(vm.spaces, l).present else tableOk)
  {
    if Uncounted(vm, t, ref) {
      ReferenceFrameSucceeds(vm, l, t, ref, tableOk);
    }
    var (vm', status) := CreatePage(vm, l, t, ref, tableOk);
    if !Uncounted(vm, t, ref) {
      CreatePageInv(vm, l, t, ref, tableOk);
    } else if status == Success {
      assert SpaceShape(vm.spaces[l.pid], vm.zeroPpn);
      var vm0 := vm;
      if !HasTable(vm.spaces, l) {
        InstallTableEntries(vm.spaces, l.pid, l.dir);
        vm0 := vm.(spaces := InstallTable(vm.spaces, l.pid, l.dir));
      }
      assert EntryOk(Entry(vm.spaces, l), |vm.frames.counts|, vm.zeroPpn);
      var e := NewEntry(NO_PTE, t, vm.zeroPpn, ref, None);
      PutDiffers(vm0, l, e);
      OwnersAfterUpdate(vm.spaces, vm'.spaces, l, ref.value - USER_PPN);
    } else {
      assert SpaceShape(vm.spaces[l.pid], vm.zeroPpn);
      assert vm'.frames == vm.frames && vm'.spaces == vm.spaces;
    }
  }

  /** A page on a reference frame maps that frame, copy-on-write, and may be written at
      once exactly if its type may; a page zero-filled on demand has no use for the
      reference frame. */
  lemma ReferenceFrameEntry(vm: Vm, l: Loc, t: MemType, ref: nat, tableOk: bool)
    requires Inv(vm) && l.pid in vm.spaces && l.dir < ENTRIES && l.idx < ENTRIES
    requires CreatePage(vm, l, t, Some(ref), tableOk).1 == Success
    ensures var vm', e := CreatePage(vm, l, t, Some(ref), tableOk).0, Entry(CreatePage(vm, l, t, Some(ref), tableOk).0.spaces, l);
      && vm'.frames == vm.frames && vm'.mem == vm.mem && Mapped(e) && !e.global
      && (e.rw <==> t.Data? || t.Bss? || t.Heap? || t.Stack? || t.User?)
      && (if t.Bss? then e.zero && e.ppn == vm.zeroPpn && !e.cow else !e.zero && e.ppn == ref && e.cow)
      && (forall m :: m != l ==> Entry(vm'.spaces, m) == Entry(vm.spaces, m))
  {
    hide Conserved;
    hide Exclusive;
    hide SamePage;
    hide SetEntry;
    hide NextFree;
    assert SpaceShape(vm.spaces[l.pid], vm.zeroPpn);
    assert EntryOk(Entry(vm.spaces, l), |vm.frames.counts|, vm.zeroPpn);
    if !HasTable(vm.spaces, l) {
      InstallTableEntries(vm.spaces, l.pid, l.dir);
      var vm2 := vm.(spaces := InstallTable(vm.spaces, l.pid, l.dir));
      PutDiffers(vm2, l, NewEntry(Entry(vm2.spaces, l), t, vm.zeroPpn, Some(ref), None));
    } else {
      PutDiffers(vm, l, NewEntry(Entry(vm.spaces, l), t, vm.zeroPpn, Some(ref), None));
    }
  }

  /** What create_page answers.  A page zero-filled on demand needs no frame, so that to
      back out of it kills the thread. */
  lemma CreatePageAnswers(vm: Vm, l: Loc, t: MemType, tableOk: bool)
    requires Inv(vm) && l.pid in vm.spaces && l.dir < ENTRIES && l.idx < ENTRIES
    ensures CreatePage(vm, l, t, None, tableOk).1 ==
      if l.dir < KERNEL_DIRS then InvalidArg
      else if !t.Bss? && (forall f :: 0 <= f < |vm.frames.counts| ==> vm.frames.counts[f] != 0) then NoFrames
      else if Mapped(Entry(vm.spaces, l)) then (if t.Bss? then Panic else PageAlreadyPresent)
      else if HasTable(vm.spaces, l) || tableOk then Success
      else if t.Bss? then Panic else MallocFail
  {
    hide Conserved;
    hide Exclusive;
    hide SamePage;
    hide SetEntry;
    hide NextFree;
    AllocateExact(vm.frames);
    if l.dir >= KERNEL_DIRS && (t.Bss? || vm.frames.next != -1) {
      assert SpaceShape(vm.spaces[l.pid], vm.zeroPpn);
      assert EntryOk(Entry(vm.spaces, l), |vm.frames.counts|, vm.zeroPpn);
      GiveBackInv(vm, !t.Bss?);
    }
  }

  /** What destroy_page answers: a page zero-filled on demand has no frame of its own to
      give back, which kills the thread. */
  lemma DestroyPageAnswers(vm: Vm, l: Loc)
    requires Inv(vm)
    ensures DestroyPage(vm, l).1 ==
      if !HasTable(vm.spaces, l) then DirectoryNotPresent
      else if !Entry(vm.spaces, l).present then PageNotPresent
      else if l.dir < KERNEL_DIRS then KernelPage
      else if Entry(vm.spaces, l).zero then Panic else Success
  {
    hide Conserved;
    hide SamePage;
    hide SetEntry;
    if HasTable(vm.spaces, l) && Entry(vm.spaces, l).present {
      if l.dir < KERNEL_DIRS {
        KernelEntry(vm, l);
      } else {
        assert EntryOk(Entry(vm.spaces, l), |vm.frames.counts|, vm.zeroPpn);
        MappedEntry(vm, l);
        if Owning(Entry(vm.spaces, l)) {
          OwnerCounted(vm, l);
        }
      }
    }
  }

  /** A copy-on-write page that nobody shares any more keeps its frame: the fault makes it
      writable and does nothing else.  One that is shared gets another frame if one is
      free. */
  lemma CowFaultFrame(vm: Vm, l: Loc)
    requires Inv(vm) && Owning(Entry(vm.spaces, l)) && Entry(vm.spaces, l).cow
    ensures var vm', e := PageFault(vm, l).0, Entry(vm.spaces, l);
      var e', f := Entry(PageFault(vm, l).0.spaces, l), FrameId(Entry(vm.spaces, l).ppn);
      && 0 <= f < |vm.frames.counts| && e'.rw && !e'.cow
      && (vm.frames.counts[f] == 1 || vm.frames.next == -1 ==> vm'.frames == vm.frames && vm'.mem == vm.mem && e'.ppn == e.ppn)
      && (vm.frames.counts[f] > 1 && vm.frames.next != -1 ==> e'.ppn == USER_PPN + vm.frames.next && vm'.frames.counts[f] == vm.frames.counts[f] - 1)
      && (forall m :: m != l ==> Entry(vm'.spaces, m) == Entry(vm.spaces, m))
  {
    hide Conserved;
    hide Exclusive;
    hide SamePage;
    hide SetEntry;
    hide NextFree;
    MappedEntry(vm, l);
    OwnerCounted(vm, l);
    AllocateExact(vm.frames);
    var e1 := Entry(vm.spaces, l).(cow := false, rw := true);
    PutDiffers(vm, l, e1);
    if vm.frames.next != -1 {
      PutDiffers(Put(vm, l, e1), l, e1.(ppn := USER_PPN + vm.frames.next));
    }
  }

  /** What the zero-fill branch of the fault handler does: the page gets a frame of its
      own, filled with zeroes and writable, or without a free frame the thread is
      killed. */
  lemma ZeroFaultEffect(vm: Vm, l: Loc)
    requires Valid(vm.frames) && Memory(vm) && HasTable(vm.spaces, l) && Entry(vm.spaces, l).zero
    ensures var (vm', outcome) := PageFault(vm, l);
      if forall f :: 0 <= f < |vm.frames.counts| ==> vm.frames.counts[f] != 0 then vm' == vm && outcome == Killed
      else
        && outcome == Resumed
        && var f := FrameId(Entry(vm'.spaces, l).ppn);
        && Entry(vm'.spaces, l) == Entry(vm.spaces, l).(zero := false, rw := true, ppn := Entry(vm'.spaces, l).ppn)
        && 0 <= f < |vm.mem| && vm.frames.counts[f] == 0 && vm'.frames.counts == vm.frames.counts[f := 1]
        && vm'.mem == vm.mem[f := ZeroFill()]
        && (forall m :: m != l ==> Entry(vm'.spaces, m) == Entry(vm.spaces, m))
  {
    hide SetEntry;
    hide NextFree;
    AllocateExact(vm.frames);
    if vm.frames.next != -1 {
      PutDiffers(vm, l, Entry(vm.spaces, l).(zero := false, rw := true, ppn := USER_PPN + vm.frames.next));
    }
  }

  // ----- user writes -----

  /** A write to `l` can be given a private frame: the frame is not shared, or
      another one is free. */
  ghost predicate WriteRoom(vm: Vm, l: Loc) {
    var e := Entry(vm.spaces, l);
    e.cow && 0 <= FrameId(e.ppn) < |vm.frames.counts| ==>
      vm.frames.counts[FrameId(e.ppn)] <= 1 || exists f :: 0 <= f < |vm.frames.counts| && vm.frames.counts[f] == 0
  }

  /** `vm'` is `vm` with the page at `l` moved to a frame of its own, which holds
      the old contents and may be written; nothing else can tell. */
  ghost predicate Unshared(vm: Vm, vm': Vm, l: Loc) {
    var e, e' := Entry(vm.spaces, l), Entry(vm'.spaces, l);
    && UserWritable(vm', l)
    && Owning(e') && !e'.cow
    && 0 <= FrameId(e'.ppn) < |vm'.frames.counts| && vm'.frames.counts[FrameId(e'.ppn)] == 1
    && Contents(vm', e') == Contents(vm, e)
    && Differ(vm.spaces, vm'.spaces, l)
    && vm'.spaces.Keys == vm.spaces.Keys
    && vm'.zeroPage == vm.zeroPage && vm'.zeroPpn == vm.zeroPpn && |vm'.mem| == |vm.mem|
    && (forall f :: 0 <= f < |vm.mem| && f < |vm.frames.counts| && vm.frames.counts[f] != 0 ==> vm'.mem[f] == vm.mem[f])
  }

  /** The last owner of a copy-on-write frame just gets its write access back. */
  lemma CowLastOwner(vm: Vm, l: Loc)
    requires Inv(vm) && Owning(Entry(vm.spaces, l)) && Entry(vm.spaces, l).cow
    requires vm.frames.counts[FrameId(Entry(vm.spaces, l).ppn)] == 1
    ensures Inv(PageFault(vm, l).0) && Unshared(vm, PageFault(vm, l).0, l)
  {
    MappedEntry(vm, l);
    UserTable(vm, l);
    var e := Entry(vm.spaces, l).(cow := false, rw := true);
    ReplaceInv(vm, l, e);
    PutDiffers(vm, l, e);
    PutUserTable(vm, l, e);
  }

  lemma PutUserTable(vm: Vm, l: Loc, e: Pte)
    requires HasTable(vm.spaces, l)
    ensures var ss := Put(vm, l, e).spaces;
      && l.pid in ss && l.dir < |ss[l.pid]|
      && ss[l.pid][l.dir].user == vm.spaces[l.pid][l.dir].user
      && ss[l.pid][l.dir].rw == vm.spaces[l.pid][l.dir].rw
  {
  }

  /** The count of the frame left behind goes down from 2 or more: the cursor
      stays right. */
  lemma DropSharedValid(fr: Frames, src: nat)
    requires Valid(fr) && src < |fr.counts| && fr.counts[src] >= 2
    ensures Valid(Frames(fr.counts[src := fr.counts[src] - 1], fr.next))
  {
  }

  lemma PutPut(vm: Vm, l: Loc, e1: Pte, e2: Pte)
    ensures Put(Put(vm, l, e1), l, e2) == Put(vm, l, e2)
  {
    if HasTable(vm.spaces, l) {
      SetEntryElsewhere(vm.spaces, l, e1);
      var pde := vm.spaces[l.pid][l.dir];
      assert pde.table[l.idx := e1][l.idx := e2] == pde.table[l.idx := e2];
      var s := vm.spaces[l.pid];
      var pde1, pde2 := pde.(table := pde.table[l.idx := e1]), pde.(table := pde.table[l.idx := e2]);
      assert s[l.dir := pde1][l.dir := pde2] == s[l.dir := pde2];
    }
  }

  /** The state after copying a shared page, in one piece. */
  function Copied(vm: Vm, l: Loc): Vm
    requires 0 <= vm.frames.next < |vm.frames.counts|
  {
    var e := Entry(vm.spaces, l);
    var src, f := FrameId(e.ppn), vm.frames.next;
    var fr := Allocate(vm.frames).0;
    SetFrame(Put(vm, l, e.(cow := false, rw := true, ppn := USER_PPN + f)), f, Contents(vm, e))
      .(frames := if 0 <= src < |fr.counts| && fr.counts[src] > 0
                  then Frames(fr.counts[src := fr.counts[src] - 1], fr.next) else fr)
  }

  lemma CowIsCopied(vm: Vm, l: Loc)
    requires Inv(vm) && Owning(Entry(vm.spaces, l)) && Entry(vm.spaces, l).cow
    requires vm.frames.next != -1 && vm.frames.counts[FrameId(Entry(vm.spaces, l).ppn)] > 1
    ensures PageFault(vm, l).0 == Copied(vm, l)
  {
    hide Shaped;
    hide EntriesOk;
    hide NextFree;
    hide SetEntry;
    hide Conserved;
    hide Exclusive;
    hide SamePage;
    MappedEntry(vm, l);
    var e := Entry(vm.spaces, l);
    var e1 := e.(cow := false, rw := true);
    PutDiffers(vm, l, e1);
    PutPut(vm, l, e1, e1.(ppn := USER_PPN + vm.frames.next));
  }

  /** A shared frame with another one free: the page is copied. */
  lemma CopiedInv(vm: Vm, l: Loc)
    requires Inv(vm) && Owning(Entry(vm.spaces, l))
    requires vm.frames.next != -1 && vm.frames.counts[FrameId(Entry(vm.spaces, l).ppn)] > 1
    ensures Inv(Copied(vm, l))
  {
    hide NextFree;
    hide SetEntry;
    hide Shaped;
    hide EntriesOk;
    hide Conserved;
    hide Exclusive;
    hide SamePage;
    MappedEntry(vm, l);
    AllocateExact(vm.frames);
    var e := Entry(vm.spaces, l);
    var src, f := FrameId(e.ppn), vm.frames.next;
    UncountedUnmapped(vm, f);
    var e2 := e.(cow := false, rw := true, ppn := USER_PPN + f);
    PutDiffers(vm, l, e2);
    DropSharedValid(Allocate(vm.frames).0, src);
    PutTables(vm, l, e2);
    InvUpdate(vm, Copied(vm, l), l);
  }

  lemma CopiedUnshared(vm: Vm, l: Loc)
    requires Inv(vm) && Owning(Entry(vm.spaces, l))
    requires vm.frames.next != -1 && vm.frames.counts[FrameId(Entry(vm.spaces, l).ppn)] > 1
    ensures Unshared(vm, Copied(vm, l), l)
  {
    hide NextFree;
    hide SetEntry;
    hide Conserved;
    hide Exclusive;
    hide SamePage;
    MappedEntry(vm, l);
    UserTable(vm, l);
    AllocateExact(vm.frames);
    var e2 := Entry(vm.spaces, l).(cow := false, rw := true, ppn := USER_PPN + vm.frames.next);
    PutDiffers(vm, l, e2);
    PutUserTable(vm, l, e2);
  }

  /** The copy-on-write fault keeps the invariant exactly when there is room for
      the copy; with room it leaves a private, writable page with the old
      contents. */
  lemma CowFaultExact(vm: Vm, l: Loc)
    requires Inv(vm) && Mapped(Entry(vm.spaces, l)) && Entry(vm.spaces, l).cow
    ensures PageFault(vm, l).1 == Resumed
    ensures Exclusive(PageFault(vm, l).0.frames.counts, PageFault(vm, l).0.spaces) <==> WriteRoom(vm, l)
    ensures WriteRoom(vm, l) ==> Inv(PageFault(vm, l).0) && Unshared(vm, PageFault(vm, l).0, l)
  {
    MappedEntry(vm, l);
    OwnerCounted(vm, l);
    AllocateExact(vm.frames);
    var e := Entry(vm.spaces, l);
    if vm.frames.counts[FrameId(e.ppn)] == 1 {
      CowLastOwner(vm, l);
    } else if vm.frames.next != -1 {
      CowIsCopied(vm, l);
      CopiedInv(vm, l);
      CopiedUnshared(vm, l);
    } else {
      PutDiffers(vm, l, e.(cow := false, rw := true));
    }
  }

  /** With the flags create_page and copy_paging set, zero pages never fault on a
      write: the zero-fill branch of the fault handler is not reached. */
  lemma ZeroPagesNeverFault(vm: Vm, l: Loc)
    requires Inv(vm) && Entry(vm.spaces, l).zero
    ensures UserWritable(vm, l)
  {
    if l.dir < KERNEL_DIRS {
      KernelEntry(vm, l);
    }
    assert EntryOk(Entry(vm.spaces, l), |vm.frames.counts|, vm.zeroPpn);
    UserTable(vm, l);
  }

  /** A user write keeps the invariant exactly when there is room for a copy. */
  lemma UserWriteInv(vm: Vm, l: Loc, off: nat, v: bv8)
    requires Inv(vm)
    ensures Inv(UserWrite(vm, l, off, v).0) <==> WriteRoom(vm, l)
  {
    hide Conserved;
    hide Exclusive;
    var e := Entry(vm.spaces, l);
    if HasTable(vm.spaces, l) && l.dir < KERNEL_DIRS {
      KernelEntry(vm, l);
    }
    assert l.dir >= KERNEL_DIRS ==> EntryOk(e, |vm.frames.counts|, vm.zeroPpn);
    if UserWritable(vm, l) {
      StoreInv(vm, l, off, v);
    } else if e.zero {
      ZeroPagesNeverFault(vm, l);
    } else if e.cow {
      CowFaultExact(vm, l);
      var vm1 := PageFault(vm, l).0;
      if WriteRoom(vm, l) {
        StoreInv(vm1, l, off, v);
      } else {
        assert UserWrite(vm, l, off, v).0 == vm1.(mem := UserWrite(vm, l, off, v).0.mem, zeroPage := UserWrite(vm, l, off, v).0.zeroPage);
      }
    }
  }
}

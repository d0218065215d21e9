/** new_pages and remove_pages (kern/syscall/paging.c): mapping and unmapping runs
    of pages, and the packed table that remembers them. */
module Regions {
  import opened Collections
  import opened FrameAllocator
  import opened PageTables
  import opened VirtualMemory
  import opened VmInvariant
  import opened VmFork
  import opened VmRefinement
  import opened EagerMemory

  const MEMORY := PAGES * PAGE_BYTES
  /** The longest region, in pages; a page count takes 12 bits. */
  const MAX_PAGES := 0xfff

  /** Addresses are 32-bit and wrap. */
  function Wrap(va: nat): nat
    requires va < 2 * MEMORY
  {
    if va < MEMORY then va else va - MEMORY
  }

  predicate IsBase(base: nat) {
    base < MEMORY && base % PAGE_BYTES == 0
  }

  /** Page `k` of the region at `base`. */
  function PageAt(pid: nat, base: nat, k: nat): Loc
    requires base < MEMORY && k <= MAX_PAGES
  {
    LocOf(pid, Wrap(base + k * PAGE_BYTES))
  }

  lemma PageAtBounds(pid: nat, base: nat, k: nat)
    requires IsBase(base) && k <= MAX_PAGES
    ensures PageAt(pid, base, k).pid == pid && PageAt(pid, base, k).dir < ENTRIES && PageAt(pid, base, k).idx < ENTRIES
    ensures AddressOf(PageAt(pid, base, k)) == Wrap(base + k * PAGE_BYTES)
  {
    var va := Wrap(base + k * PAGE_BYTES);
    OffsetsBijective(pid, va, Loc(pid, 0, 0));
    assert va % PAGE_BYTES == 0;
  }

  /** The pages of a region are different pages, wrap-around included. */
  lemma PageAtDistinct(pid: nat, base: nat, j: nat, k: nat)
    requires IsBase(base) && j <= MAX_PAGES && k <= MAX_PAGES && j != k
    ensures PageAt(pid, base, j) != PageAt(pid, base, k)
  {
    PageAtBounds(pid, base, j);
    PageAtBounds(pid, base, k);
  }

  // ----- mapping and unmapping runs of pages -----

  /** The allocation loop over the first `n` pages: it stops at the first error
      and says how many pages it made. `tables(k)` says whether a page table can
      be allocated for page `k`. */
  function CreateRange(vm: Vm, pid: nat, base: nat, n: nat, tables: nat -> bool): (r: (Vm, nat, Status))
    requires base < MEMORY && n <= MAX_PAGES + 1
    ensures r.1 <= n && (r.2 == Success ==> r.1 == n) && (r.2 != Success ==> r.1 < n)
  {
    if n == 0 then (vm, 0, Success)
    else
      var (vm1, made, status) := CreateRange(vm, pid, base, n - 1, tables);
      if status != Success then (vm1, made, status)
      else
        var (vm2, status2) := CreatePage(vm1, PageAt(pid, base, n - 1), User, None, tables(n - 1));
        (vm2, if status2 == Success then n else n - 1, status2)
  }

  /** The loop that destroys the first `n` pages; the flag is false if one of them
      could not be destroyed, which is a kernel panic. */
  function DestroyRange(vm: Vm, pid: nat, base: nat, n: nat): (Vm, bool)
    requires base < MEMORY && n <= MAX_PAGES + 1
  {
    if n == 0 then (vm, true)
    else
      var (vm1, ok) := DestroyRange(vm, pid, base, n - 1);
      var (vm2, status) := DestroyPage(vm1, PageAt(pid, base, n - 1));
      (vm2, ok && status == Success)
  }

  /** The memset over the first `n` pages. */
  function ZeroRange(vm: Vm, pid: nat, base: nat, n: nat): Vm
    requires base < MEMORY && n <= MAX_PAGES + 1
  {
    if n == 0 then vm
    else
      var vm1 := ZeroRange(vm, pid, base, n - 1);
      var f := FrameId(Entry(vm1.spaces, PageAt(pid, base, n - 1)).ppn);
      if f < 0 then vm1 else SetFrame(vm1, f, ZeroFill())
  }

  /** `l` is one of the first `n` pages of the region. */
  ghost predicate InRange(l: Loc, pid: nat, base: nat, n: nat)
    requires base < MEMORY && n <= MAX_PAGES + 1
  {
    exists k: nat :: k < n && l == PageAt(pid, base, k)
  }

  /** The first `n` pages are mapped to private user frames. */
  ghost predicate AllPrivate(vm: Vm, pid: nat, base: nat, n: nat)
    requires base < MEMORY && n <= MAX_PAGES + 1
  {
    forall k: nat :: k < n ==> Owning(Entry(vm.spaces, PageAt(pid, base, k)))
  }

  /** Pages outside the range have the same entries in both states. */
  ghost predicate SameOutside(vm: Vm, vm': Vm, pid: nat, base: nat, n: nat)
    requires base < MEMORY && n <= MAX_PAGES + 1
  {
    forall l: Loc :: !InRange(l, pid, base, n) ==> Entry(vm'.spaces, l) == Entry(vm.spaces, l)
  }

  /** `vm'` is `vm` with the first `n` pages mapped: each was unmapped, is writable
      now and has a frame; memory is untouched. */
  ghost predicate RangeMade(vm: Vm, vm': Vm, pid: nat, base: nat, n: nat)
    requires base < MEMORY && n <= MAX_PAGES + 1
  {
    && vm'.spaces.Keys == vm.spaces.Keys && vm'.mem == vm.mem && vm'.zeroPage == vm.zeroPage
    && SameOutside(vm, vm', pid, base, n)
    && AllPrivate(vm', pid, base, n)
    && (forall k: nat :: k < n ==> Entry(vm.spaces, PageAt(pid, base, k)) == NO_PTE)
    && (forall k: nat :: k < n ==> Entry(vm'.spaces, PageAt(pid, base, k)).rw)
  }

  lemma RangeMadeStep(vm: Vm, vm1: Vm, vm2: Vm, pid: nat, base: nat, n: nat)
    requires IsBase(base) && n <= MAX_PAGES
    requires RangeMade(vm, vm1, pid, base, n) && PageAdded(vm1, vm2, PageAt(pid, base, n), User)
    requires Inv(vm1) && PageAt(pid, base, n).dir >= KERNEL_DIRS
    ensures RangeMade(vm, vm2, pid, base, n + 1)
  {
    hide PageAt;
    var l := PageAt(pid, base, n);
    forall k: nat | k < n ensures PageAt(pid, base, k) != l {
      PageAtDistinct(pid, base, k, n);
    }
    UnmappedIsEmpty(vm1, l);
    hide Entry;
    hide Inv;
    assert !InRange(l, pid, base, n);
    forall m: Loc | !InRange(m, pid, base, n + 1) ensures Entry(vm2.spaces, m) == Entry(vm.spaces, m) {
      assert m != l;
      assert !InRange(m, pid, base, n);
    }
    assert Owning(Entry(vm2.spaces, l)) && Entry(vm2.spaces, l).rw;
  }

  lemma UnmappedIsEmpty(vm: Vm, l: Loc)
    requires Inv(vm) && l.dir >= KERNEL_DIRS && !Mapped(Entry(vm.spaces, l))
    ensures Entry(vm.spaces, l) == NO_PTE
  {
    assert EntryOk(Entry(vm.spaces, l), |vm.frames.counts|, vm.zeroPpn);
  }

  /** One more page. */
  lemma CreateRangeStep(vm: Vm, vm1: Vm, pid: nat, base: nat, n: nat, tableOk: bool)
    requires Inv(vm1) && pid in vm.spaces && IsBase(base) && n <= MAX_PAGES && RangeMade(vm, vm1, pid, base, n)
    ensures var (vm2, status) := CreatePage(vm1, PageAt(pid, base, n), User, None, tableOk);
      && Inv(vm2)
      && RangeMade(vm, vm2, pid, base, if status == Success then n + 1 else n)
  {
    hide Inv;
    hide PageAt;
    hide Entry;
    hide CreatePage;
    hide PageAdded;
    hide AllPrivate;
    hide SameOutside;
    var l := PageAt(pid, base, n);
    PageAtBounds(pid, base, n);
    CreatePageInv(vm1, l, User, None, tableOk);
    var (vm2, status) := CreatePage(vm1, l, User, None, tableOk);
    if status == Success {
      SuccessInUserDir(vm1, l, User, tableOk);
      RangeMadeStep(vm, vm1, vm2, pid, base, n);
    } else {
      SameSpaces(vm, vm1, vm2, pid, base, n);
    }
  }

  /** The allocation loop adds exactly the pages it says it made. */
  lemma {:induction false} CreateRangeEffect(vm: Vm, pid: nat, base: nat, n: nat, tables: nat -> bool)
    requires Inv(vm) && pid in vm.spaces && IsBase(base) && n <= MAX_PAGES + 1
    ensures var (vm', made, status) := CreateRange(vm, pid, base, n, tables);
      Inv(vm') && RangeMade(vm, vm', pid, base, made)
  {
    hide Inv;
    hide PageAt;
    hide Entry;
    hide CreatePage;
    hide PageAdded;
    if n != 0 {
      hide AllPrivate;
      hide SameOutside;
      CreateRangeEffect(vm, pid, base, n - 1, tables);
      var (vm1, made, status) := CreateRange(vm, pid, base, n - 1, tables);
      if status == Success {
        CreateRangeStep(vm, vm1, pid, base, n - 1, tables(n - 1));
      }
    }
  }

  lemma SuccessInUserDir(vm: Vm, l: Loc, t: MemType, tableOk: bool)
    requires CreatePage(vm, l, t, None, tableOk).1 == Success
    ensures l.dir >= KERNEL_DIRS
  {
  }

  lemma SameSpaces(vm: Vm, vm1: Vm, vm2: Vm, pid: nat, base: nat, n: nat)
    requires base < MEMORY && n <= MAX_PAGES + 1 && RangeMade(vm, vm1, pid, base, n)
    requires vm2.spaces == vm1.spaces && vm2.mem == vm1.mem && vm2.zeroPage == vm1.zeroPage
    ensures RangeMade(vm, vm2, pid, base, n)
  {
  }

  /** `vm'` is `vm` without the first `n` pages. */
  ghost predicate RangeGone(vm: Vm, vm': Vm, pid: nat, base: nat, n: nat)
    requires base < MEMORY && n <= MAX_PAGES + 1
  {
    && vm'.spaces.Keys == vm.spaces.Keys && vm'.mem == vm.mem && vm'.zeroPage == vm.zeroPage && vm'.zeroPpn == vm.zeroPpn
    && SameOutside(vm, vm', pid, base, n)
    && (forall k: nat :: k < n ==> Entry(vm'.spaces, PageAt(pid, base, k)) == NO_PTE)
  }

  /** Destroying one private page succeeds and clears its entry. */
  lemma DestroyOwned(vm: Vm, l: Loc)
    requires Inv(vm) && Owning(Entry(vm.spaces, l))
    ensures var (vm', status) := DestroyPage(vm, l);
      && Inv(vm') && status == Success
      && vm'.spaces.Keys == vm.spaces.Keys && vm'.mem == vm.mem && vm'.zeroPage == vm.zeroPage && vm'.zeroPpn == vm.zeroPpn
      && Differ(vm.spaces, vm'.spaces, l) && Entry(vm'.spaces, l) == NO_PTE
  {
    MappedEntry(vm, l);
    ClearInv(vm, l);
    PutDiffers(vm, l, NO_PTE);
  }

  /** The removal loop never panics on private pages and removes exactly those. */
  lemma {:induction false} DestroyRangeEffect(vm: Vm, pid: nat, base: nat, n: nat)
    requires Inv(vm) && IsBase(base) && n <= MAX_PAGES + 1 && AllPrivate(vm, pid, base, n)
    ensures var (vm', ok) := DestroyRange(vm, pid, base, n);
      Inv(vm') && ok && RangeGone(vm, vm', pid, base, n)
  {
    hide Inv;
    hide PageAt;
    hide Entry;
    hide DestroyPage;
    if n != 0 {
      DestroyRangeEffect(vm, pid, base, n - 1);
      var vm1 := DestroyRange(vm, pid, base, n - 1).0;
      var l := PageAt(pid, base, n - 1);
      forall k: nat | k < n - 1 ensures PageAt(pid, base, k) != l {
        PageAtDistinct(pid, base, k, n - 1);
      }
      assert !InRange(l, pid, base, n - 1);
      DestroyOwned(vm1, l);
      var vm2 := DestroyPage(vm1, l).0;
      forall m: Loc | !InRange(m, pid, base, n) ensures Entry(vm2.spaces, m) == Entry(vm.spaces, m) {
        assert m != l;
        assert !InRange(m, pid, base, n - 1);
      }
    }
  }

  /** Two states of the invariant with the same entries have the same counts. */
  lemma SameEntriesSameCounts(vm: Vm, vm': Vm)
    requires Inv(vm) && Inv(vm') && |vm'.mem| == |vm.mem|
    requires forall l :: Entry(vm'.spaces, l) == Entry(vm.spaces, l)
    ensures vm'.frames.counts == vm.frames.counts
  {
    forall f | 0 <= f < |vm.frames.counts| ensures vm'.frames.counts[f] == vm.frames.counts[f] {
      OwnersUnchanged(vm.spaces, vm'.spaces, f);
    }
  }

  /** Making pages and taking them back: every entry and every count is as before,
      and no step of the way back panics. */
  lemma RollBack(vm: Vm, vm1: Vm, pid: nat, base: nat, n: nat)
    requires Inv(vm) && Inv(vm1) && IsBase(base) && n <= MAX_PAGES + 1 && RangeMade(vm, vm1, pid, base, n)
    ensures var (vm', ok) := DestroyRange(vm1, pid, base, n);
      && ok && Inv(vm') && vm'.mem == vm.mem && vm'.zeroPage == vm.zeroPage
      && (forall l :: Entry(vm'.spaces, l) == Entry(vm.spaces, l))
      && vm'.frames.counts == vm.frames.counts
  {
    hide Inv;
    hide PageAt;
    hide Entry;
    hide DestroyRange;
    DestroyRangeEffect(vm1, pid, base, n);
    var vm' := DestroyRange(vm1, pid, base, n).0;
    forall l ensures Entry(vm'.spaces, l) == Entry(vm.spaces, l) {
      if InRange(l, pid, base, n) {
        var k: nat :| k < n && l == PageAt(pid, base, k);
      }
    }
    SameEntriesSameCounts(vm, vm');
  }

  /** After the memset the first `n` pages read as zeroes and no other page
      changed. */
  lemma {:induction false} ZeroRangeEffect(vm: Vm, pid: nat, base: nat, n: nat)
    requires Inv(vm) && IsBase(base) && n <= MAX_PAGES + 1 && AllPrivate(vm, pid, base, n)
    requires forall k: nat :: k < n ==> Entry(vm.spaces, PageAt(pid, base, k)).rw
    ensures var vm' := ZeroRange(vm, pid, base, n);
      && Inv(vm') && vm'.spaces == vm.spaces && vm'.frames == vm.frames && |vm'.mem| == |vm.mem|
      && (forall k: nat :: k < n ==> ShadowOf(vm', PageAt(pid, base, k)) == Some(Private(ZeroFill(), true)))
      && (forall l: Loc :: !InRange(l, pid, base, n) ==> ShadowOf(vm', l) == ShadowOf(vm, l))
  {
    hide Inv;
    hide PageAt;
    hide ShadowOf;
    hide Entry;
    if n != 0 {
      ZeroRangeEffect(vm, pid, base, n - 1);
      var vm1 := ZeroRange(vm, pid, base, n - 1);
      var l := PageAt(pid, base, n - 1);
      ZeroOne(vm1, l);
      var vm2 := SetFrame(vm1, FrameId(Entry(vm1.spaces, l).ppn), ZeroFill());
      forall k: nat | k < n - 1 ensures PageAt(pid, base, k) != l {
        PageAtDistinct(pid, base, k, n - 1);
      }
      forall m: Loc | !InRange(m, pid, base, n) ensures ShadowOf(vm2, m) == ShadowOf(vm, m) {
        assert m != l;
        assert !InRange(m, pid, base, n - 1);
      }
    }
  }

  /** Filling the frame of a writable page changes that page alone. */
  lemma ZeroOne(vm: Vm, l: Loc)
    requires Inv(vm) && Owning(Entry(vm.spaces, l)) && Entry(vm.spaces, l).rw
    ensures var f := FrameId(Entry(vm.spaces, l).ppn);
      && f >= 0
      && var vm' := SetFrame(vm, f, ZeroFill());
      && Inv(vm')
      && ShadowOf(vm', l) == Some(Private(ZeroFill(), true))
      && (forall m :: m != l ==> ShadowOf(vm', m) == ShadowOf(vm, m))
  {
    MappedEntry(vm, l);
    var f := FrameId(Entry(vm.spaces, l).ppn);
    SetFrameInv(vm, f, ZeroFill());
    var vm' := SetFrame(vm, f, ZeroFill());
    forall m | m != l ensures ShadowOf(vm', m) == ShadowOf(vm, m) {
      if Owning(Entry(vm.spaces, m)) && Entry(vm.spaces, m).ppn == Entry(vm.spaces, l).ppn {
        TwoOwnersCounted(vm, l, m);
      }
      SameShadow(vm, vm', m);
    }
  }

  // ----- the region table -----

  const SLOTS := 1024

  /** The region table of a process: packed regions, 0 in a free slot, and the
      next slot to use, or -1. */
  datatype Table = Table(slots: seq<nat>, next: int)

  /** `base | pages`: the two parts do not overlap. */
  function Pack(base: nat, pages: nat): nat {
    base + pages
  }

  function BaseOf(slot: nat): (base: nat)
    ensures base <= slot
  {
    slot - slot % PAGE_BYTES
  }

  function PagesOf(slot: nat): (pages: nat)
    ensures pages <= MAX_PAGES
  {
    slot % PAGE_BYTES
  }

  lemma Unpack(base: nat, pages: nat)
    requires IsBase(base) && pages <= MAX_PAGES
    ensures BaseOf(Pack(base, pages)) == base && PagesOf(Pack(base, pages)) == pages
    ensures Pack(base, pages) < MEMORY
  {
  }

  /** The first slot, from `i` on, whose region starts at `base`. */
  function FindSlot(slots: seq<nat>, base: nat, i: nat): int
    requires i <= |slots|
    decreases |slots| - i
  {
    if i == |slots| then -1
    else if BaseOf(slots[i]) == base then i
    else FindSlot(slots, base, i + 1)
  }

  lemma {:induction false} FindSlotFirst(slots: seq<nat>, base: nat, i: nat)
    requires i <= |slots|
    ensures var r := FindSlot(slots, base, i);
      && -1 <= r < |slots|
      && (forall k :: i <= k < (if r == -1 then |slots| else r) ==> BaseOf(slots[k]) != base)
      && (r != -1 ==> i <= r && BaseOf(slots[r]) == base)
    decreases |slots| - i
  {
    if i < |slots| && BaseOf(slots[i]) != base {
      FindSlotFirst(slots, base, i + 1);
    }
  }

  datatype CallOutcome = Done | BadArgument | WornOut | NoRegion | CreateFailed(status: Status) | KernelPanic

  /** _new_pages (kern/syscall/paging.c:31-85). */
  function NewPages(vm: Vm, pid: nat, tab: Table, base: nat, len: int, tables: nat -> bool): (Vm, Table, CallOutcome)
    requires base < MEMORY
  {
    if base % PAGE_BYTES != 0 then (vm, tab, BadArgument)
    else if len < 0 || len % PAGE_BYTES != 0 || len > MAX_PAGES * PAGE_BYTES then (vm, tab, BadArgument)
    else if tab.next < 0 || |tab.slots| <= tab.next then (vm, tab, WornOut)
    else
      var pages := len / PAGE_BYTES;
      var (vm1, made, status) := CreateRange(vm, pid, base, pages, tables);
      if status != Success then
        var (vm2, ok) := DestroyRange(vm1, pid, base, made);
        (vm2, tab, if ok then CreateFailed(status) else KernelPanic)
      else
        var slots := tab.slots[tab.next := Pack(base, pages)];
        (ZeroRange(vm1, pid, base, pages),
         Table(slots, NextFree(slots, (tab.next + 1) % |slots|, |slots| - 1)),
         Done)
  }

  /** _remove_pages (kern/syscall/paging.c:94-129). */
  function RemovePages(vm: Vm, pid: nat, tab: Table, base: nat): (Vm, Table, CallOutcome)
    requires base < MEMORY
  {
    if base % PAGE_BYTES != 0 then (vm, tab, BadArgument)
    else
      var i := FindSlot(tab.slots, base, 0);
      if i < 0 || |tab.slots| <= i || PagesOf(tab.slots[i]) == 0 then (vm, tab, NoRegion)
      else
        var (vm1, ok) := DestroyRange(vm, pid, base, PagesOf(tab.slots[i]));
        if !ok then (vm1, tab, KernelPanic)
        else (vm1, Table(tab.slots[i := 0], if tab.next == -1 then i else tab.next), Done)
  }

  ghost predicate TableShape(tab: Table) {
    && |tab.slots| == SLOTS
    && -1 <= tab.next < SLOTS
    && (tab.next != -1 ==> tab.slots[tab.next] == 0)
    && (forall i :: 0 <= i < SLOTS ==> tab.slots[i] < MEMORY)
  }

  /** Every page of a recorded region is mapped to a user frame. */
  ghost predicate RegionsMapped(vm: Vm, pid: nat, slots: seq<nat>)
    requires forall i :: 0 <= i < |slots| ==> slots[i] < MEMORY
  {
    forall i, k: nat :: 0 <= i < |slots| && k < PagesOf(slots[i]) ==>
      Owning(Entry(vm.spaces, PageAt(pid, BaseOf(slots[i]), k)))
  }

  /** Recorded regions do not overlap. */
  ghost predicate RegionsDisjoint(pid: nat, slots: seq<nat>)
    requires forall i :: 0 <= i < |slots| ==> slots[i] < MEMORY
  {
    forall i, j, k: nat, m: nat ::
      0 <= i < |slots| && 0 <= j < |slots| && i != j && k < PagesOf(slots[i]) && m < PagesOf(slots[j]) ==>
      PageAt(pid, BaseOf(slots[i]), k) != PageAt(pid, BaseOf(slots[j]), m)
  }

  ghost predicate TableInv(vm: Vm, pid: nat, tab: Table) {
    && TableShape(tab)
    && RegionsMapped(vm, pid, tab.slots)
    && RegionsDisjoint(pid, tab.slots)
  }

  /** The cursor is -1 exactly when no slot is free. */
  ghost predicate SlotsExact(tab: Table) {
    tab.next == -1 <==> forall i :: 0 <= i < |tab.slots| ==> tab.slots[i] != 0
  }

  // ----- the two calls keep the table -----

  predicate GoodLength(len: int) {
    0 <= len <= MAX_PAGES * PAGE_BYTES && len % PAGE_BYTES == 0
  }

  /** new_pages is all or nothing: a call that does not succeed leaves every entry
      and every count as it was, does not touch the table and never panics. */
  lemma NewPagesAllOrNothing(vm: Vm, pid: nat, tab: Table, base: nat, len: int, tables: nat -> bool)
    requires Inv(vm) && pid in vm.spaces && base < MEMORY
    ensures var (vm', tab', outcome) := NewPages(vm, pid, tab, base, len, tables);
      && outcome != KernelPanic
      && Inv(vm')
      && (outcome != Done ==>
            && tab' == tab
            && (forall l :: Entry(vm'.spaces, l) == Entry(vm.spaces, l))
            && vm'.frames.counts == vm.frames.counts && vm'.mem == vm.mem && vm'.zeroPage == vm.zeroPage)
  {
    hide Inv;
    hide CreateRange;
    hide DestroyRange;
    hide ZeroRange;
    if IsBase(base) && GoodLength(len) && 0 <= tab.next < |tab.slots| {
      var pages := len / PAGE_BYTES;
      CreateRangeEffect(vm, pid, base, pages, tables);
      var (vm1, made, status) := CreateRange(vm, pid, base, pages, tables);
      if status != Success {
        RollBack(vm, vm1, pid, base, made);
      } else {
        ZeroRangeEffect(vm1, pid, base, pages);
      }
    }
  }

  /** A successful new_pages maps exactly the pages of the region, which were
      unmapped before; they are writable and read as zeroes; no other page of any
      process changes. */
  lemma NewPagesEffect(vm: Vm, pid: nat, tab: Table, base: nat, len: int, tables: nat -> bool)
    requires Inv(vm) && pid in vm.spaces && base < MEMORY
    requires NewPages(vm, pid, tab, base, len, tables).2 == Done
    ensures IsBase(base) && GoodLength(len) && 0 <= tab.next < |tab.slots|
    ensures var vm', pages := NewPages(vm, pid, tab, base, len, tables).0, len / PAGE_BYTES;
      && vm'.spaces.Keys == vm.spaces.Keys && |vm'.mem| == |vm.mem|
      && SameOutside(vm, vm', pid, base, pages)
      && AllPrivate(vm', pid, base, pages)
      && (forall k: nat :: k < pages ==> Entry(vm.spaces, PageAt(pid, base, k)) == NO_PTE)
      && (forall k: nat :: k < pages ==> ShadowOf(vm', PageAt(pid, base, k)) == Some(Private(ZeroFill(), true)))
      && (forall l: Loc :: !InRange(l, pid, base, pages) ==> ShadowOf(vm', l) == ShadowOf(vm, l))
  {
    hide Inv;
    hide CreateRange;
    hide DestroyRange;
    hide ZeroRange;
    hide PageAt;
    var pages := len / PAGE_BYTES;
    CreateRangeEffect(vm, pid, base, pages, tables);
    var vm1 := CreateRange(vm, pid, base, pages, tables).0;
    ZeroRangeEffect(vm1, pid, base, pages);
    forall l: Loc | !InRange(l, pid, base, pages) ensures ShadowOf(vm1, l) == ShadowOf(vm, l) {
      SameShadow(vm, vm1, l);
    }
  }

  /** The new slot, and what the search for the next one finds. */
  lemma NewSlot(slots: seq<nat>, next: nat, entry: nat)
    requires |slots| == SLOTS && next < SLOTS
    ensures var slots' := slots[next := entry];
      var r := NextFree(slots', (next + 1) % SLOTS, SLOTS - 1);
      && -1 <= r < SLOTS
      && (r != -1 ==> slots'[r] == 0 && r != next)
      && (r == -1 ==> forall i :: 0 <= i < SLOTS && i != next ==> slots'[i] != 0)
  {
    var slots' := slots[next := entry];
    var start := (next + 1) % SLOTS;
    var k := NextFreeIsFirst(slots', start, SLOTS - 1);
    if k == SLOTS - 1 {
      forall i | 0 <= i < SLOTS && i != next ensures slots'[i] != 0 {
        var d := if i >= start then i - start else i - start + SLOTS;
        assert Ahead(start, d, SLOTS) == i;
      }
    }
  }

  lemma NewPagesKeepsTable(vm: Vm, pid: nat, tab: Table, base: nat, len: int, tables: nat -> bool)
    requires Inv(vm) && pid in vm.spaces && base < MEMORY && TableInv(vm, pid, tab)
    ensures var (vm', tab', _) := NewPages(vm, pid, tab, base, len, tables);
      TableInv(vm', pid, tab')
  {
    hide PageAt;
    hide Inv;
    hide NewPages;
    hide Entry;
    NewPagesAllOrNothing(vm, pid, tab, base, len, tables);
    var (vm', tab', outcome) := NewPages(vm, pid, tab, base, len, tables);
    if outcome == Done {
      NewPagesEffect(vm, pid, tab, base, len, tables);
      NewPagesTable(vm, pid, tab, base, len, tables);
      var pages := len / PAGE_BYTES;
      NewSlot(tab.slots, tab.next, Pack(base, pages));
      Unpack(base, pages);
      AddRegion(vm, vm', pid, tab.slots, tab.next, base, pages);
    }
  }

  lemma NewPagesTable(vm: Vm, pid: nat, tab: Table, base: nat, len: int, tables: nat -> bool)
    requires base < MEMORY && TableShape(tab)
    requires NewPages(vm, pid, tab, base, len, tables).2 == Done
    ensures 0 <= tab.next < SLOTS
    ensures var slots := tab.slots[tab.next := Pack(base, len / PAGE_BYTES)];
      NewPages(vm, pid, tab, base, len, tables).1 == Table(slots, NextFree(slots, (tab.next + 1) % SLOTS, SLOTS - 1))
  {
  }

  /** A region of pages that were unmapped joins the table. */
  lemma AddRegion(vm: Vm, vm': Vm, pid: nat, slots: seq<nat>, next: nat, base: nat, pages: nat)
    requires next < |slots| && (forall i :: 0 <= i < |slots| ==> slots[i] < MEMORY)
    requires IsBase(base) && pages <= MAX_PAGES
    requires RegionsMapped(vm, pid, slots) && RegionsDisjoint(pid, slots) && slots[next] == 0
    requires SameOutside(vm, vm', pid, base, pages) && AllPrivate(vm', pid, base, pages)
    requires forall k: nat :: k < pages ==> Entry(vm.spaces, PageAt(pid, base, k)) == NO_PTE
    ensures var slots' := slots[next := Pack(base, pages)];
      && (forall i :: 0 <= i < |slots'| ==> slots'[i] < MEMORY)
      && RegionsMapped(vm', pid, slots') && RegionsDisjoint(pid, slots')
  {
    hide PageAt;
    hide Entry;
    Unpack(base, pages);
    var slots' := slots[next := Pack(base, pages)];
    forall i, k: nat | 0 <= i < |slots| && i != next && k < PagesOf(slots[i])
      ensures !InRange(PageAt(pid, BaseOf(slots[i]), k), pid, base, pages)
    {
      assert Owning(Entry(vm.spaces, PageAt(pid, BaseOf(slots[i]), k)));
    }
    hide Pack;
    hide BaseOf;
    hide PagesOf;
    forall i, k: nat | 0 <= i < |slots'| && k < PagesOf(slots'[i])
      ensures Owning(Entry(vm'.spaces, PageAt(pid, BaseOf(slots'[i]), k)))
    {
      if i != next {
        assert slots'[i] == slots[i];
      }
    }
    forall i, j, k: nat, m: nat | 0 <= i < |slots'| && 0 <= j < |slots'| && i != j && k < PagesOf(slots'[i]) && m < PagesOf(slots'[j])
      ensures PageAt(pid, BaseOf(slots'[i]), k) != PageAt(pid, BaseOf(slots'[j]), m)
    {
      if i == next {
        assert !InRange(PageAt(pid, BaseOf(slots[j]), m), pid, base, pages);
      } else if j == next {
        assert !InRange(PageAt(pid, BaseOf(slots[i]), k), pid, base, pages);
      }
    }
  }

  /** remove_pages never reaches its panic, removes exactly the pages of the region
      it finds, and keeps the table. */
  lemma RemovePagesEffect(vm: Vm, pid: nat, tab: Table, base: nat)
    requires Inv(vm) && base < MEMORY && TableInv(vm, pid, tab)
    ensures var (vm', tab', outcome) := RemovePages(vm, pid, tab, base);
      && outcome != KernelPanic
      && Inv(vm') && TableInv(vm', pid, tab')
      && (outcome != Done ==> vm' == vm && tab' == tab)
      && (outcome == Done ==>
            var i := FindSlot(tab.slots, base, 0);
            && IsBase(base) && 0 <= i < SLOTS && BaseOf(tab.slots[i]) == base
            && RangeGone(vm, vm', pid, base, PagesOf(tab.slots[i]))
            && tab' == Table(tab.slots[i := 0], if tab.next == -1 then i else tab.next))
  {
    hide PageAt;
    hide Inv;
    hide Entry;
    hide DestroyRange;
    hide FindSlot;
    if base % PAGE_BYTES == 0 {
      var i := FindSlot(tab.slots, base, 0);
      FindSlotFirst(tab.slots, base, 0);
      if i != -1 && PagesOf(tab.slots[i]) != 0 {
        var pages := PagesOf(tab.slots[i]);
        assert AllPrivate(vm, pid, base, pages);
        DestroyRangeEffect(vm, pid, base, pages);
        DropRegion(vm, DestroyRange(vm, pid, base, pages).0, pid, tab.slots, i);
      }
    }
  }

  lemma DropRegion(vm: Vm, vm': Vm, pid: nat, slots: seq<nat>, i: nat)
    requires i < |slots| && (forall i :: 0 <= i < |slots| ==> slots[i] < MEMORY)
    requires RegionsMapped(vm, pid, slots) && RegionsDisjoint(pid, slots)
    requires SameOutside(vm, vm', pid, BaseOf(slots[i]), PagesOf(slots[i]))
    ensures var slots' := slots[i := 0];
      && (forall i :: 0 <= i < |slots'| ==> slots'[i] < MEMORY)
      && RegionsMapped(vm', pid, slots') && RegionsDisjoint(pid, slots')
  {
    hide PageAt;
    hide Entry;
    hide BaseOf;
    var slots' := slots[i := 0];
    assert PagesOf(0) == 0;
    hide PagesOf;
    forall j, k: nat | 0 <= j < |slots'| && k < PagesOf(slots'[j])
      ensures Owning(Entry(vm'.spaces, PageAt(pid, BaseOf(slots'[j]), k)))
    {
      assert j != i;
      assert !InRange(PageAt(pid, BaseOf(slots[j]), k), pid, BaseOf(slots[i]), PagesOf(slots[i]));
    }
  }

  // ----- the slot cursor -----

  /** new_pages keeps the cursor exact, except for the empty region at address 0,
      whose record reads as a free slot. */
  lemma NewPagesSlots(vm: Vm, pid: nat, tab: Table, base: nat, len: int, tables: nat -> bool)
    requires base < MEMORY && TableShape(tab) && SlotsExact(tab)
    requires NewPages(vm, pid, tab, base, len, tables).2 == Done
    ensures SlotsExact(NewPages(vm, pid, tab, base, len, tables).1) <==>
      base + len > 0 || exists i :: 0 <= i < SLOTS && i != tab.next && tab.slots[i] == 0
  {
    NewPagesTable(vm, pid, tab, base, len, tables);
    NewPagesArgs(vm, pid, tab, base, len, tables);
    NewSlot(tab.slots, tab.next, Pack(base, len / PAGE_BYTES));
    hide NewPages;
    hide NextFree;
    var tab' := NewPages(vm, pid, tab, base, len, tables).1;
    assert tab'.slots[tab.next] == Pack(base, len / PAGE_BYTES);
    assert base + len > 0 <==> Pack(base, len / PAGE_BYTES) > 0;
    assert forall i :: 0 <= i < SLOTS && i != tab.next ==> tab'.slots[i] == tab.slots[i];
    if tab'.next != -1 {
      assert tab.slots[tab'.next] == 0;
    }
  }

  lemma NewPagesArgs(vm: Vm, pid: nat, tab: Table, base: nat, len: int, tables: nat -> bool)
    requires base < MEMORY && NewPages(vm, pid, tab, base, len, tables).2 == Done
    ensures IsBase(base) && GoodLength(len)
  {
  }

  lemma RemovePagesSlots(vm: Vm, pid: nat, tab: Table, base: nat)
    requires Inv(vm) && base < MEMORY && TableInv(vm, pid, tab) && SlotsExact(tab)
    ensures SlotsExact(RemovePages(vm, pid, tab, base).1)
  {
    hide RemovePages;
    hide Inv;
    RemovePagesEffect(vm, pid, tab, base);
    var (vm', tab', outcome) := RemovePages(vm, pid, tab, base);
    if outcome == Done {
      assert tab'.slots[FindSlot(tab.slots, base, 0)] == 0;
    }
  }

  // ----- remove_pages undoes new_pages -----

  /** The region just made sits in slot `tab.next`, and other slots with its base
      hold empty regions. */
  lemma SlotsWithBase(vm: Vm, pid: nat, tab: Table, base: nat, pages: nat, i: nat)
    requires TableInv(vm, pid, tab) && IsBase(base) && 0 < pages <= MAX_PAGES && i < SLOTS
    requires Entry(vm.spaces, PageAt(pid, base, 0)) == NO_PTE
    ensures BaseOf(tab.slots[i]) == base <==> tab.slots[i] == base
  {
    hide PageAt;
    assert PagesOf(tab.slots[i]) > 0 ==> Owning(Entry(vm.spaces, PageAt(pid, BaseOf(tab.slots[i]), 0)));
  }

  lemma NonemptyRegionNotAtZero(vm: Vm, pid: nat, base: nat, n: nat, tables: nat -> bool)
    requires base < MEMORY && 0 < n <= MAX_PAGES + 1 && CreateRange(vm, pid, base, n, tables).2 == Success
    ensures base != 0
    decreases n
  {
    assert PageAt(pid, base, 0).dir == base / 0x400000;
    if n > 1 {
      NonemptyRegionNotAtZero(vm, pid, base, n - 1, tables);
    }
  }

  /** The search for the base of the region just made finds its slot exactly when
      no earlier slot holds an empty region there. */
  lemma FindNewSlot(vm: Vm, pid: nat, tab: Table, base: nat, pages: nat)
    requires TableInv(vm, pid, tab) && tab.next != -1 && IsBase(base) && 0 < base && 0 < pages <= MAX_PAGES
    requires Entry(vm.spaces, PageAt(pid, base, 0)) == NO_PTE
    ensures var slots := tab.slots[tab.next := Pack(base, pages)];
      var i := FindSlot(slots, base, 0);
      && 0 <= i <= tab.next
      && (i == tab.next <==> forall k :: 0 <= k < tab.next ==> tab.slots[k] != base)
      && (i != tab.next ==> PagesOf(slots[i]) == 0)
  {
    hide PageAt;
    hide Entry;
    Unpack(base, pages);
    var slots := tab.slots[tab.next := Pack(base, pages)];
    FindSlotFirst(slots, base, 0);
    hide FindSlot;
    forall k | 0 <= k < SLOTS ensures BaseOf(tab.slots[k]) == base <==> tab.slots[k] == base {
      SlotsWithBase(vm, pid, tab, base, pages, k);
    }
    assert slots[tab.next] == Pack(base, pages);
    assert forall k :: 0 <= k < tab.next ==> slots[k] == tab.slots[k];
    assert PagesOf(base) == 0;
  }

  lemma RemoveUndoesNonempty(vm: Vm, pid: nat, tab: Table, base: nat, len: int, tables: nat -> bool)
    requires Inv(vm) && pid in vm.spaces && base < MEMORY && TableInv(vm, pid, tab) && len > 0
    requires NewPages(vm, pid, tab, base, len, tables).2 == Done
    ensures var (vm1, tab1, _) := NewPages(vm, pid, tab, base, len, tables);
      var (vm2, tab2, outcome) := RemovePages(vm1, pid, tab1, base);
      && (outcome == Done <==> forall i :: 0 <= i < tab.next ==> tab.slots[i] != base)
      && (outcome == Done ==>
            && (forall l :: Entry(vm2.spaces, l) == Entry(vm.spaces, l))
            && vm2.frames.counts == vm.frames.counts
            && tab2.slots == tab.slots)
  {
    hide PageAt;
    hide Entry;
    hide Inv;
    NewPagesAllOrNothing(vm, pid, tab, base, len, tables);
    NewPagesEffect(vm, pid, tab, base, len, tables);
    NewPagesKeepsTable(vm, pid, tab, base, len, tables);
    NewPagesTable(vm, pid, tab, base, len, tables);
    var (vm1, tab1, _) := NewPages(vm, pid, tab, base, len, tables);
    var pages := len / PAGE_BYTES;
    assert CreateRange(vm, pid, base, pages, tables).2 == Success;
    NonemptyRegionNotAtZero(vm, pid, base, pages, tables);
    hide CreateRange;
    hide NewPages;
    hide NextFree;
    hide TableInv;
    FindNewSlot(vm, pid, tab, base, pages);
    Unpack(base, pages);
    RemovePagesEffect(vm1, pid, tab1, base);
    hide DestroyRange;
    if FindSlot(tab1.slots, base, 0) == tab.next {
      var vm2 := RemovePages(vm1, pid, tab1, base).0;
      UndoneEntries(vm, vm1, vm2, pid, base, pages);
      SameEntriesSameCounts(vm, vm2);
      EmptySlot(vm, pid, tab, Pack(base, pages));
    }
  }

  /** Every entry, every count and every slot is as it was. */
  ghost predicate Undone(vm: Vm, tab: Table, vm': Vm, tab': Table) {
    && (forall l :: Entry(vm'.spaces, l) == Entry(vm.spaces, l))
    && vm'.frames.counts == vm.frames.counts
    && tab'.slots == tab.slots
  }

  /** What remove_pages removes after an empty region was recorded is not that
      region. */
  lemma RemoveAfterEmpty(vm: Vm, pid: nat, tab: Table, base: nat, tables: nat -> bool)
    requires Inv(vm) && pid in vm.spaces && base < MEMORY && TableInv(vm, pid, tab)
    requires NewPages(vm, pid, tab, base, 0, tables).2 == Done
    ensures var (vm1, tab1, _) := NewPages(vm, pid, tab, base, 0, tables);
      var (vm2, tab2, outcome) := RemovePages(vm1, pid, tab1, base);
      outcome == Done ==> !Undone(vm, tab, vm2, tab2)
  {
    hide PageAt;
    hide Entry;
    hide Inv;
    NewPagesAllOrNothing(vm, pid, tab, base, 0, tables);
    NewPagesEffect(vm, pid, tab, base, 0, tables);
    NewPagesKeepsTable(vm, pid, tab, base, 0, tables);
    var (vm1, tab1, _) := NewPages(vm, pid, tab, base, 0, tables);
    hide NewPages;
    RemovePagesEffect(vm1, pid, tab1, base);
    var (vm2, tab2, outcome) := RemovePages(vm1, pid, tab1, base);
    if outcome == Done {
      var i := FindSlot(tab1.slots, base, 0);
      assert PagesOf(tab1.slots[i]) > 0;
      hide RemovePages;
      var l := PageAt(pid, base, 0);
      assert Owning(Entry(vm1.spaces, PageAt(pid, BaseOf(tab1.slots[i]), 0)));
      assert Entry(vm2.spaces, l) == NO_PTE;
      assert !InRange(l, pid, base, 0);
    }
  }

  /** remove_pages at the base of a region just made undoes new_pages - every entry,
      every count, every slot - exactly when the region is not empty and no earlier
      slot records an empty region at that base. */
  lemma RemoveUndoesNew(vm: Vm, pid: nat, tab: Table, base: nat, len: int, tables: nat -> bool)
    requires Inv(vm) && pid in vm.spaces && base < MEMORY && TableInv(vm, pid, tab)
    requires NewPages(vm, pid, tab, base, len, tables).2 == Done
    ensures var (vm1, tab1, _) := NewPages(vm, pid, tab, base, len, tables);
      var (vm2, tab2, outcome) := RemovePages(vm1, pid, tab1, base);
      outcome == Done && Undone(vm, tab, vm2, tab2) <==> len > 0 && forall i :: 0 <= i < tab.next ==> tab.slots[i] != base
  {
    hide Inv;
    hide TableInv;
    NewPagesArgs(vm, pid, tab, base, len, tables);
    hide NewPages;
    hide RemovePages;
    if len > 0 {
      RemoveUndoesNonempty(vm, pid, tab, base, len, tables);
    } else {
      RemoveAfterEmpty(vm, pid, tab, base, tables);
    }
  }

  /** The first new_pages of a process asks for an empty region; the next, at the same
      base, for a page.  remove_pages at that base then finds the empty region, and
      fails. */
  lemma EmptyRegionBlocks(vm: Vm, pid: nat, base: nat, len: int, tables: nat -> bool)
    requires Inv(vm) && pid in vm.spaces && IsBase(base) && len > 0
    ensures var empty := Table(seq(SLOTS, _ => 0), 0);
      var (vm1, tab1, first) := NewPages(vm, pid, empty, base, 0, tables);
      first == Done &&
      var (vm2, tab2, second) := NewPages(vm1, pid, tab1, base, len, tables);
      second == Done ==> RemovePages(vm2, pid, tab2, base).2 != Done
  {
    hide Inv;
    var empty := Table(seq(SLOTS, _ => 0), 0);
    EmptyTableInv(vm, pid);
    var (vm1, tab1, first) := NewPages(vm, pid, empty, base, 0, tables);
    assert vm1 == vm && first == Done;
    NewPagesTable(vm, pid, empty, base, 0, tables);
    NewPagesKeepsTable(vm, pid, empty, base, 0, tables);
    hide TableInv;
    var (vm2, tab2, second) := NewPages(vm1, pid, tab1, base, len, tables);
    if second == Done {
      NewPagesTable(vm1, pid, tab1, base, len, tables);
      RemoveUndoesNonempty(vm1, pid, tab1, base, len, tables);
      assert tab1.slots[0] == base && tab1.slots[1] == 0 && tab1.next == 1;
    }
  }

  /** Both calls succeed in a process just made, with one frame of memory. */
  lemma EmptyRegionReachable(vm: Vm, tables: nat -> bool)
    requires Initial(vm) && tables(0)
    ensures var vm0, empty := Apply(vm, Spawn(0)), Table(seq(SLOTS, _ => 0), 0);
      var (vm1, tab1, first) := NewPages(vm0, 0, empty, USER_MEM_START, 0, tables);
      Inv(vm0) && 0 in vm0.spaces && first == Done && NewPages(vm1, 0, tab1, USER_MEM_START, PAGE_BYTES, tables).2 == Done
  {
    InitialInv(vm);
    SpawnInv(vm, 0);
    var vm0, empty := Apply(vm, Spawn(0)), Table(seq(SLOTS, _ => 0), 0);
    var (vm1, tab1, first) := NewPages(vm0, 0, empty, USER_MEM_START, 0, tables);
    assert vm1 == vm0 && tab1.slots[1] == 0 && tab1.next == 1;
    var l := PageAt(0, USER_MEM_START, 0);
    assert l == Loc(0, KERNEL_DIRS, 0);
    assert vm0.frames.counts[0] == 0;
    hide Inv;
    CreatePageSucceeds(vm0, l, User, tables(0));
    hide CreatePage;
    assert CreateRange(vm0, 0, USER_MEM_START, 1, tables).2 == Success;
  }

  lemma EmptySlot(vm: Vm, pid: nat, tab: Table, entry: nat)
    requires TableInv(vm, pid, tab) && tab.next != -1
    ensures tab.slots[tab.next := entry][tab.next := 0] == tab.slots
  {
  }

  lemma UndoneEntries(vm: Vm, vm1: Vm, vm2: Vm, pid: nat, base: nat, pages: nat)
    requires base < MEMORY && pages <= MAX_PAGES
    requires SameOutside(vm, vm1, pid, base, pages) && RangeGone(vm1, vm2, pid, base, pages)
    requires forall k: nat :: k < pages ==> Entry(vm.spaces, PageAt(pid, base, k)) == NO_PTE
    ensures forall l :: Entry(vm2.spaces, l) == Entry(vm.spaces, l)
  {
    hide PageAt;
    hide Entry;
    forall l ensures Entry(vm2.spaces, l) == Entry(vm.spaces, l) {
      if InRange(l, pid, base, pages) {
        var k: nat :| k < pages && l == PageAt(pid, base, k);
      }
    }
  }

  // ----- runs -----

  /** What may happen while a program image runs: its own two calls, and any other
      paging operation of the system. */
  datatype Call = New(base: nat, len: int, tables: nat -> bool) | Remove(base: nat) | Other(op: Op)

  function Step(vm: Vm, pid: nat, tab: Table, call: Call): (Vm, Table, CallOutcome) {
    match call
    case New(base, len, tables) => if base < MEMORY then NewPages(vm, pid, tab, base, len, tables) else (vm, tab, BadArgument)
    case Remove(base) => if base < MEMORY then RemovePages(vm, pid, tab, base) else (vm, tab, BadArgument)
    case Other(op) => (Apply(vm, op), tab, Done)
  }

  /** Operations that take pages of `pid` away behind the table's back: a direct
      destroy_page, and the reset and teardown that end the program image. */
  predicate EndsImage(op: Op, pid: nat) {
    (op.Destroy? || op.DoReset? || op.DoTeardown?) && Subject(op) == pid
  }

  ghost predicate CallOk(vm: Vm, pid: nat, call: Call) {
    call.Other? ==> Legal(vm, call.op) && Roomy(vm, call.op) && !EndsImage(call.op, pid)
  }

  lemma OwningShadow(vm: Vm, l: Loc)
    requires Inv(vm)
    ensures Owning(Entry(vm.spaces, l)) <==> ShadowOf(vm, l).Some? && ShadowOf(vm, l).value.Private?
  {
    if Mapped(Entry(vm.spaces, l)) {
      MappedEntry(vm, l);
    }
  }

  /** No other operation unmaps a page of the process. */
  lemma OtherKeepsPage(vm: Vm, pid: nat, op: Op, l: Loc)
    requires Inv(vm) && Legal(vm, op) && Roomy(vm, op) && !EndsImage(op, pid)
    requires l.pid == pid && pid in vm.spaces && Owning(Entry(vm.spaces, l))
    ensures Inv(Apply(vm, op)) && Owning(Entry(Apply(vm, op).spaces, l))
  {
    hide Inv;
    hide View;
    hide Apply;
    hide Roomy;
    StepRefines(vm, op);
    var vm' := Apply(vm, op);
    OwningShadow(vm, l);
    OwningShadow(vm', l);
    ViewMember(vm, l);
    ViewMember(vm', l);
    hide ShadowOf;
    if Subject(op) != pid {
      EagerFrame(View(vm), op, View(vm'), l);
    }
  }

  lemma OtherKeepsProcess(vm: Vm, pid: nat, op: Op)
    requires Inv(vm) && Legal(vm, op) && Roomy(vm, op) && !EndsImage(op, pid) && pid in vm.spaces
    ensures pid in Apply(vm, op).spaces
  {
    hide Inv;
    hide Fork;
    hide CreatePage;
    match op
    case Spawn(_) =>
    case Create(l, t, ok) => CreatePageInv(vm, l, t, None, ok);
    case Destroy(_) =>
    case Write(l, off, v) => WriteKeepsProcesses(vm, l, off, v);
    case DoFork(p, c, n) => ForkExact(vm, p, c, n);
    case DoReset(p) => ResetDirsEffect(vm, p, ENTRIES);
    case DoTeardown(p) => ReleaseDirsEffect(vm, p, ENTRIES);
  }

  lemma WriteKeepsProcesses(vm: Vm, l: Loc, off: nat, v: bv8)
    ensures UserWrite(vm, l, off, v).0.spaces.Keys == vm.spaces.Keys
  {
    hide Entry;
    hide HasTable;
    hide SetEntry;
    hide Contents;
    hide Allocate;
    hide UserWritable;
    hide ZeroFill;
  }

  /** One call or operation keeps the memory system and the table in order, and no
      call panics. */
  lemma StepKeepsTable(vm: Vm, pid: nat, tab: Table, call: Call)
    requires Inv(vm) && pid in vm.spaces && TableInv(vm, pid, tab) && CallOk(vm, pid, call)
    ensures var (vm', tab', outcome) := Step(vm, pid, tab, call);
      Inv(vm') && pid in vm'.spaces && TableInv(vm', pid, tab') && outcome != KernelPanic
  {
    hide Inv;
    hide NewPages;
    hide RemovePages;
    match call
    case New(base, len, tables) =>
      if base < MEMORY {
        NewPagesAllOrNothing(vm, pid, tab, base, len, tables);
        NewPagesKeepsTable(vm, pid, tab, base, len, tables);
        NewPagesKeepsProcess(vm, pid, tab, base, len, tables);
      }
    case Remove(base) =>
      if base < MEMORY {
        RemovePagesEffect(vm, pid, tab, base);
      }
    case Other(op) =>
      hide Apply;
      StepRefines(vm, op);
      OtherKeepsProcess(vm, pid, op);
      forall i, k: nat | 0 <= i < SLOTS && k < PagesOf(tab.slots[i])
        ensures Owning(Entry(Apply(vm, op).spaces, PageAt(pid, BaseOf(tab.slots[i]), k)))
      {
        OtherKeepsPage(vm, pid, op, PageAt(pid, BaseOf(tab.slots[i]), k));
      }
  }

  lemma NewPagesKeepsProcess(vm: Vm, pid: nat, tab: Table, base: nat, len: int, tables: nat -> bool)
    requires Inv(vm) && pid in vm.spaces && base < MEMORY
    ensures pid in NewPages(vm, pid, tab, base, len, tables).0.spaces
  {
    hide Inv;
    hide CreateRange;
    hide DestroyRange;
    hide ZeroRange;
    if IsBase(base) && GoodLength(len) && 0 <= tab.next < |tab.slots| {
      var pages := len / PAGE_BYTES;
      CreateRangeEffect(vm, pid, base, pages, tables);
      var (vm1, made, status) := CreateRange(vm, pid, base, pages, tables);
      if status == Success {
        ZeroRangeEffect(vm1, pid, base, pages);
      } else {
        DestroyRangeEffect(vm1, pid, base, made);
      }
    }
  }

  /** The state after a sequence of calls. */
  ghost function RunCalls(vm: Vm, pid: nat, tab: Table, calls: seq<Call>): (Vm, Table) {
    if calls == [] then (vm, tab)
    else
      var (vm1, tab1) := RunCalls(vm, pid, tab, calls[..|calls| - 1]);
      var (vm2, tab2, _) := Step(vm1, pid, tab1, calls[|calls| - 1]);
      (vm2, tab2)
  }

  ghost predicate GoodCalls(vm: Vm, pid: nat, tab: Table, calls: seq<Call>) {
    forall k :: 0 <= k < |calls| ==> CallOk(RunCalls(vm, pid, tab, calls[..k]).0, pid, calls[k])
  }

  /** Over a whole program image, whatever the other processes do: the recorded
      regions stay mapped and disjoint, and the cursor stays on a free slot. */
  lemma {:induction false} RunKeepsTable(vm: Vm, pid: nat, tab: Table, calls: seq<Call>)
    requires Inv(vm) && pid in vm.spaces && TableInv(vm, pid, tab) && GoodCalls(vm, pid, tab, calls)
    ensures var (vm', tab') := RunCalls(vm, pid, tab, calls);
      Inv(vm') && pid in vm'.spaces && TableInv(vm', pid, tab')
  {
    hide Inv;
    hide TableInv;
    hide Step;
    if calls != [] {
      var prefix := calls[..|calls| - 1];
      forall k | 0 <= k < |prefix| ensures prefix[..k] == calls[..k] && prefix[k] == calls[k] {
      }
      RunKeepsTable(vm, pid, tab, prefix);
      var (vm1, tab1) := RunCalls(vm, pid, tab, prefix);
      StepKeepsTable(vm1, pid, tab1, calls[|calls| - 1]);
    }
  }

  /** No call asks for the empty region at address 0. */
  ghost predicate NoEmptyRegionAtZero(calls: seq<Call>) {
    forall k :: 0 <= k < |calls| && calls[k].New? ==> calls[k].base + calls[k].len > 0
  }

  lemma StepKeepsSlots(vm: Vm, pid: nat, tab: Table, call: Call)
    requires Inv(vm) && pid in vm.spaces && TableInv(vm, pid, tab) && SlotsExact(tab)
    requires call.New? ==> call.base + call.len > 0
    ensures SlotsExact(Step(vm, pid, tab, call).1)
  {
    hide Inv;
    hide NewPages;
    hide RemovePages;
    match call
    case New(base, len, tables) =>
      if base < MEMORY {
        NewPagesAllOrNothing(vm, pid, tab, base, len, tables);
        if NewPages(vm, pid, tab, base, len, tables).2 == Done {
          NewPagesSlots(vm, pid, tab, base, len, tables);
        }
      }
    case Remove(base) =>
      if base < MEMORY {
        RemovePagesSlots(vm, pid, tab, base);
      }
    case Other(op) =>
  }

  /** Over such a run the cursor is -1 exactly when no slot is free. */
  lemma {:induction false} RunKeepsSlots(vm: Vm, pid: nat, tab: Table, calls: seq<Call>)
    requires Inv(vm) && pid in vm.spaces && TableInv(vm, pid, tab) && GoodCalls(vm, pid, tab, calls)
    requires SlotsExact(tab) && NoEmptyRegionAtZero(calls)
    ensures SlotsExact(RunCalls(vm, pid, tab, calls).1)
  {
    hide Inv;
    hide TableInv;
    hide SlotsExact;
    hide Step;
    if calls != [] {
      var prefix := calls[..|calls| - 1];
      forall k | 0 <= k < |prefix| ensures prefix[..k] == calls[..k] && prefix[k] == calls[k] {
      }
      RunKeepsSlots(vm, pid, tab, prefix);
      RunKeepsTable(vm, pid, tab, prefix);
      var (vm1, tab1) := RunCalls(vm, pid, tab, prefix);
      StepKeepsSlots(vm1, pid, tab1, calls[|calls| - 1]);
    }
  }

  /** A new process starts with an empty table. */
  lemma EmptyTableInv(vm: Vm, pid: nat)
    ensures TableInv(vm, pid, Table(seq(SLOTS, _ => 0), 0)) && SlotsExact(Table(seq(SLOTS, _ => 0), 0))
  {
    assert seq(SLOTS, _ => 0)[0] == 0;
  }

  // ----- the empty region at address 0 -----

  /** The first `k` slots record an empty region at the second page. */
  function Filled(k: nat): Table {
    Table(seq(SLOTS, i => if i < k then PAGE_BYTES else 0), k)
  }

  lemma FilledStep(vm: Vm, pid: nat, k: nat, tables: nat -> bool)
    requires k + 1 < SLOTS
    ensures NewPages(vm, pid, Filled(k), PAGE_BYTES, 0, tables) == (vm, Filled(k + 1), Done)
  {
    var slots := Filled(k).slots[k := PAGE_BYTES];
    assert slots == Filled(k + 1).slots;
    assert slots[k + 1] == 0;
    assert CreateRange(vm, pid, PAGE_BYTES, 0, tables) == (vm, 0, Success) && ZeroRange(vm, pid, PAGE_BYTES, 0) == vm;
  }

  lemma {:induction false} FilledRun(vm: Vm, pid: nat, k: nat, tables: nat -> bool) returns (calls: seq<Call>)
    requires k < SLOTS
    ensures GoodCalls(vm, pid, Filled(0), calls) && NoEmptyRegionAtZero(calls)
    ensures RunCalls(vm, pid, Filled(0), calls) == (vm, Filled(k))
  {
    hide NewPages;
    if k == 0 {
      calls := [];
    } else {
      var before := FilledRun(vm, pid, k - 1, tables);
      FilledStep(vm, pid, k - 1, tables);
      calls := before + [New(PAGE_BYTES, 0, tables)];
      assert calls[..|before|] == before;
      forall j | 0 <= j < |before|
        ensures calls[..j] == before[..j] && calls[j] == before[j]
      {
      }
    }
  }

  /** Empty regions fill all slots but one, and the last one records the empty region at
      address 0: the cursor says that the table is full, and the slot reads as free. */
  lemma EmptyAtZeroReachable(vm: Vm, pid: nat, tables: nat -> bool) returns (calls: seq<Call>)
    ensures var empty := Table(seq(SLOTS, _ => 0), 0);
      && GoodCalls(vm, pid, empty, calls) && NoEmptyRegionAtZero(calls)
      && RunCalls(vm, pid, empty, calls) == (vm, Filled(SLOTS - 1)) && SlotsExact(Filled(SLOTS - 1))
    ensures var (vm', tab', outcome) := NewPages(vm, pid, Filled(SLOTS - 1), 0, 0, tables);
      outcome == Done && tab'.next == -1 && !SlotsExact(tab')
  {
    hide NewPages;
    hide GoodCalls;
    hide RunCalls;
    calls := FilledRun(vm, pid, SLOTS - 1, tables);
    assert Filled(0) == Table(seq(SLOTS, _ => 0), 0);
    LastSlotAtZero(vm, pid, tables);
  }

  lemma LastSlotAtZero(vm: Vm, pid: nat, tables: nat -> bool)
    ensures SlotsExact(Filled(SLOTS - 1))
    ensures var (vm', tab', outcome) := NewPages(vm, pid, Filled(SLOTS - 1), 0, 0, tables);
      outcome == Done && tab'.next == -1 && !SlotsExact(tab')
  {
    hide NextFree;
    var slots := Filled(SLOTS - 1).slots[SLOTS - 1 := 0];
    assert Filled(SLOTS - 1).slots[SLOTS - 1] == 0 && slots[SLOTS - 1] == 0;
    var k := NextFreeIsFirst(slots, 0, SLOTS - 1);
    assert CreateRange(vm, pid, 0, 0, tables) == (vm, 0, Success);
  }
}

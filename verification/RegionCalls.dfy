/** new_pages and remove_pages as the kernel runs them, on a page table system and
    a region table that are updated in place. */
module RegionCalls {
  import opened Collections
  import opened FrameAllocator
  import opened PageTables
  import opened VmInvariant
  import opened Regions
  import opened MemorySystem
  import VM = VirtualMemory
  import VmFork

  class RegionTable {
    const slots: array<nat>
    var next: int

    ghost function View(): Table
      reads this, slots
    {
      Table(slots[..], next)
    }

    /** The table is no part of the paging structures. */
    ghost predicate Apart(vm: Paging)
      reads vm.tables
    {
      this !in vm.Repr() && slots !in vm.Repr()
    }

    /** The table create_process sets up. */
    constructor ()
      ensures fresh(slots) && View() == Table(seq(SLOTS, _ => 0), 0)
    {
      slots := new nat[SLOTS](_ => 0);
      next := 0;
      new;
      assert slots[..] == seq(SLOTS, _ => 0);
    }

    /** The loop that destroys the first `n` pages. */
    method DestroyPages(vm: Paging, pid: nat, base: nat, n: nat) returns (ok: bool)
      requires vm.Ok() && Inv(vm.View()) && IsBase(base) && n <= MAX_PAGES && AllPrivate(vm.View(), pid, base, n)
      modifies vm.Repr()
      ensures vm.Ok() && vm.Repr() == old(vm.Repr())
      ensures (vm.View(), ok) == DestroyRange(old(vm.View()), pid, base, n)
    {
      hide Paging.View;
      hide Paging.Ok;
      hide Paging.Repr;
      hide Inv;
      hide PageAt;
      hide VM.DestroyPage;
      ghost var before := vm.View();
      ok := true;
      for i := 0 to n
        invariant vm.Ok() && vm.Repr() == old(vm.Repr())
        invariant (vm.View(), ok) == DestroyRange(before, pid, base, i)
      {
        DestroyRangeEffect(before, pid, base, i);
        var status := vm.DestroyPage(PageAt(pid, base, i));
        ok := ok && status == VM.Success;
      }
    }

    /** The memset. */
    method ZeroPages(vm: Paging, pid: nat, base: nat, n: nat)
      requires vm.Ok() && Inv(vm.View()) && IsBase(base) && n <= MAX_PAGES && AllPrivate(vm.View(), pid, base, n)
      requires forall k: nat :: k < n ==> Entry(vm.View().spaces, PageAt(pid, base, k)).rw
      modifies vm.Repr()
      ensures vm.Ok() && vm.Repr() == old(vm.Repr())
      ensures vm.View() == ZeroRange(old(vm.View()), pid, base, n)
    {
      hide Paging.View;
      hide Paging.Ok;
      hide Paging.Repr;
      hide PageAt;
      hide Inv;
      hide Entry;
      hide VmFork.ShadowOf;
      ghost var before := vm.View();
      for i := 0 to n
        invariant vm.Ok() && vm.Repr() == old(vm.Repr())
        invariant vm.View() == ZeroRange(before, pid, base, i)
      {
        ZeroRangeEffect(before, pid, base, i);
        var l := PageAt(pid, base, i);
        assert Owning(Entry(before.spaces, l));
        OwnedFrame(vm.View(), l);
        var _, e := vm.Lookup(l);
        vm.CopyFrame(FrameId(e.ppn), VM.ZeroFill());
      }
    }

    /** The allocation loop; it stops at the first error. */
    method MakePages(vm: Paging, pid: nat, base: nat, pages: nat, tables: nat -> bool)
      returns (made: nat, status: VM.Status)
      requires vm.Ok() && Inv(vm.View()) && pid in vm.View().spaces && IsBase(base) && pages <= MAX_PAGES
      modifies vm.Repr()
      ensures vm.Ok()
      ensures forall o :: o in vm.Repr() ==> o in old(vm.Repr()) || fresh(o)
      ensures (vm.View(), made, status) == CreateRange(old(vm.View()), pid, base, pages, tables)
    {
      hide Paging.View;
      hide Paging.Ok;
      hide Paging.Repr;
      hide Inv;
      hide PageAt;
      hide VM.CreatePage;
      hide RangeMade;
      ghost var before := vm.View();
      made, status := 0, VM.Success;
      while made < pages && status == VM.Success
        invariant made <= pages && vm.Ok()
        invariant forall o :: o in vm.Repr() ==> o in old(vm.Repr()) || fresh(o)
        invariant status == VM.Success ==> CreateRange(before, pid, base, made, tables) == (vm.View(), made, status)
        invariant status != VM.Success ==> CreateRange(before, pid, base, pages, tables) == (vm.View(), made, status)
        decreases pages - made, status == VM.Success
      {
        CreateRangeEffect(before, pid, base, made, tables);
        PageAtBounds(pid, base, made);
        RangeMadeKeys(before, vm.View(), pid, base, made);
        status := vm.CreatePage(PageAt(pid, base, made), VM.User, None, tables(made));
        if status == VM.Success {
          made := made + 1;
        } else {
          CreateRangeStops(before, pid, base, made + 1, pages, tables);
        }
      }
    }

    /** _new_pages */
    method NewPages(vm: Paging, pid: nat, base: nat, len: int, tables: nat -> bool) returns (outcome: CallOutcome)
      requires vm.Ok() && Inv(vm.View()) && pid in vm.View().spaces && base < MEMORY && TableShape(View()) && Apart(vm)
      modifies this`next, slots, vm.Repr()
      ensures vm.Ok() && Apart(vm)
      ensures forall o :: o in vm.Repr() ==> o in old(vm.Repr()) || fresh(o)
      ensures (vm.View(), View(), outcome) == Regions.NewPages(old(vm.View()), pid, old(View()), base, len, tables)
    {
      hide Paging.View;
      hide Paging.Repr;
      hide Paging.Ok;
      hide Inv;
      hide PageAt;
      hide CreateRange;
      hide DestroyRange;
      hide ZeroRange;
      hide SameOutside;
      hide NextFree;
      if base % PAGE_BYTES != 0 {
        return BadArgument;
      }
      if len < 0 || len % PAGE_BYTES != 0 || len > MAX_PAGES * PAGE_BYTES {
        return BadArgument;
      }
      if next == -1 {
        return WornOut;
      }
      var pages := len / PAGE_BYTES;
      CreateRangeEffect(vm.View(), pid, base, pages, tables);
      var made, status := MakePages(vm, pid, base, pages, tables);
      if status != VM.Success {
        var ok := DestroyPages(vm, pid, base, made);
        return if ok then CreateFailed(status) else KernelPanic;
      }
      ZeroAndRecord(vm, pid, base, pages);
      return Done;
    }

    /** The new region is cleared and gets the slot under the cursor. */
    method ZeroAndRecord(vm: Paging, pid: nat, base: nat, pages: nat)
      requires vm.Ok() && Inv(vm.View()) && IsBase(base) && pages <= MAX_PAGES && AllPrivate(vm.View(), pid, base, pages)
      requires forall k: nat :: k < pages ==> Entry(vm.View().spaces, PageAt(pid, base, k)).rw
      requires TableShape(View()) && next != -1 && Apart(vm)
      modifies this`next, slots, vm.Repr()
      ensures vm.Ok() && vm.Repr() == old(vm.Repr())
      ensures vm.View() == ZeroRange(old(vm.View()), pid, base, pages)
      ensures var filled := old(View()).slots[old(next) := Pack(base, pages)];
        View() == Table(filled, NextFree(filled, (old(next) + 1) % SLOTS, SLOTS - 1))
    {
      hide Paging.View;
      hide Paging.Ok;
      hide Inv;
      hide PageAt;
      hide Pack;
      hide ZeroRange;
      hide NextFree;
      hide AllPrivate;
      ZeroPages(vm, pid, base, pages);
      Record(Pack(base, pages));
    }

    /** Fills the slot under the cursor and looks for the next free one. */
    method Record(entry: nat)
      requires TableShape(View()) && next != -1
      modifies this`next, slots
      ensures var filled := old(View()).slots[old(next) := entry];
        View() == Table(filled, NextFree(filled, (old(next) + 1) % SLOTS, SLOTS - 1))
    {
      slots[next] := entry;
      ghost var filled := slots[..];
      assert filled == old(slots[..])[next := entry];
      var id := (next + 1) % SLOTS;
      ghost var left := SLOTS - 1;
      while id != next && slots[id] != 0
        invariant 0 <= id < SLOTS && 0 <= left < SLOTS
        invariant id == if next >= left then next - left else next + SLOTS - left
        invariant NextFree(filled, (next + 1) % SLOTS, SLOTS - 1) == NextFree(filled, id, left)
        decreases left
      {
        id := (id + 1) % SLOTS;
        left := left - 1;
      }
      next := if id == next then -1 else id;
    }

    /** _remove_pages */
    method RemovePages(vm: Paging, pid: nat, base: nat) returns (outcome: CallOutcome)
      requires vm.Ok() && Inv(vm.View()) && base < MEMORY && TableInv(vm.View(), pid, View()) && Apart(vm)
      modifies this`next, slots, vm.Repr()
      ensures vm.Ok() && vm.Repr() == old(vm.Repr())
      ensures (vm.View(), View(), outcome) == Regions.RemovePages(old(vm.View()), pid, old(View()), base)
    {
      hide Paging.View;
      hide Paging.Ok;
      hide Inv;
      hide PageAt;
      hide DestroyRange;
      if base % PAGE_BYTES != 0 {
        return BadArgument;
      }
      var found := -1;
      var i := 0;
      while i < SLOTS && found == -1
        invariant 0 <= i <= SLOTS
        invariant found == -1 ==> FindSlot(slots[..], base, 0) == FindSlot(slots[..], base, i)
        invariant found != -1 ==> 0 <= found < SLOTS && FindSlot(slots[..], base, 0) == found
        decreases SLOTS - i, found == -1
      {
        if BaseOf(slots[i]) == base {
          found := i;
        } else {
          i := i + 1;
        }
      }
      if found == -1 || PagesOf(slots[found]) == 0 {
        return NoRegion;
      }
      FindSlotFirst(slots[..], base, 0);
      hide FindSlot;
      assert AllPrivate(vm.View(), pid, base, PagesOf(slots[found]));
      var ok := DestroyPages(vm, pid, base, PagesOf(slots[found]));
      if !ok {
        return KernelPanic;
      }
      ghost var before := slots[..];
      slots[found] := 0;
      assert slots[..] == before[found := 0];
      if next == -1 {
        next := found;
      }
      return Done;
    }
  }

  lemma OwnedFrame(vm: VM.Vm, l: Loc)
    requires Inv(vm) && Owning(Entry(vm.spaces, l))
    ensures 0 <= FrameId(Entry(vm.spaces, l).ppn) < |vm.mem|
  {
    MappedEntry(vm, l);
  }

  lemma RangeMadeKeys(vm: VM.Vm, vm': VM.Vm, pid: nat, base: nat, n: nat)
    requires base < MEMORY && n <= MAX_PAGES + 1 && RangeMade(vm, vm', pid, base, n)
    ensures vm'.spaces.Keys == vm.spaces.Keys
  {
  }

  /** The allocation loop stops at the first page that fails. */
  lemma {:induction false} CreateRangeStops(vm: VM.Vm, pid: nat, base: nat, i: nat, n: nat, tables: nat -> bool)
    requires base < MEMORY && i <= n <= MAX_PAGES + 1 && CreateRange(vm, pid, base, i, tables).2 != VM.Success
    ensures CreateRange(vm, pid, base, n, tables) == CreateRange(vm, pid, base, i, tables)
    decreases n
  {
    if i < n {
      CreateRangeStops(vm, pid, base, i, n - 1, tables);
    }
  }
}

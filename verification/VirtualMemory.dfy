/** The paging operations of kern/vm/page.c and copy_on_write of kern/vm/frame.c
    as functions on the whole memory system: frame counts, frame contents and
    the page tables of every process.

    The functions are total.  Where they would leave the tables the kernel
    keeps (a missing page table, a frame outside memory) they change nothing;
    `VmInvariant.Inv` excludes those cases in every reachable state. */
module VirtualMemory {
  import opened Collections
  import opened FrameAllocator
  import opened PageTables

  type Page = seq<bv8>

  function ZeroFill(): (p: Page)
    ensures |p| == PAGE_BYTES && forall k :: 0 <= k < PAGE_BYTES ==> p[k] == 0
  {
    seq(PAGE_BYTES, _ => 0)
  }

  /** `mem[f]` holds frame `f`.  The zero frame is a kernel page and is kept
      apart: `zeroPage` at physical page `zeroPpn`. */
  datatype Vm = Vm(frames: Frames, mem: seq<Page>, zeroPage: Page, zeroPpn: nat, spaces: Spaces)

  datatype MemType = Text | Rodata | Data | Bss | Heap | Stack | User

  predicate WritableType(t: MemType) {
    !t.Text? && !t.Rodata?
  }

  datatype Status =
    | Success
    | InvalidArg
    | NoFrames
    | MallocFail
    | PageAlreadyPresent
    | DirectoryNotPresent
    | PageNotPresent
    | KernelPage
    | Panic

  // ----- small steps -----

  function Put(vm: Vm, l: Loc, e: Pte): Vm {
    if HasTable(vm.spaces, l) then vm.(spaces := SetEntry(vm.spaces, l, e)) else vm
  }

  function SetFrame(vm: Vm, f: nat, p: Page): Vm {
    if f < |vm.mem| then vm.(mem := vm.mem[f := p]) else vm
  }

  /** What a read through entry `e` sees. */
  function Contents(vm: Vm, e: Pte): Page {
    var f := FrameId(e.ppn);
    if 0 <= f < |vm.mem| then vm.mem[f] else vm.zeroPage
  }

  // ----- create_page, destroy_page -----

  /** The entry create_page writes over `e`. */
  function NewEntry(e: Pte, t: MemType, zeroPpn: nat, ref: Option<nat>, frame: Option<nat>): Pte {
    var e := e.(present := true, user := true);
    var e :=
      if t.Bss? then e.(zero := true, ppn := zeroPpn)
      else if ref.Some? then e.(cow := true, ppn := ref.value)
      else if frame.Some? then e.(ppn := USER_PPN + frame.value)
      else e;
    if WritableType(t) then e.(rw := true) else e
  }

  /** Backs out of create_page: free_frame on the new frame, or on NULL when none
      was needed, which is an error and kills the thread. */
  function GiveBack(vm: Vm, frame: Option<nat>, status: Status): (Vm, Status) {
    var id := if frame.Some? then frame.value else -1;
    var (frames, err) := FreeFrame(vm.frames, id);
    (vm.(frames := frames), if err.Ok? then status else Panic)
  }

  /** create_page (kern/vm/page.c:238-330).  `ref` is the reference frame and
      `tableOk` says whether a page table could be allocated. */
  function CreatePage(vm: Vm, l: Loc, t: MemType, ref: Option<nat>, tableOk: bool): (Vm, Status) {
    if l.dir < KERNEL_DIRS then (vm, InvalidArg)
    else if ref.Some? && ref.value < USER_PPN then (vm, InvalidArg)
    else
      var needed := !t.Bss? && ref.None?;
      var (frames, frame) := if needed then Allocate(vm.frames) else (vm.frames, None);
      if needed && frame.None? then (vm, NoFrames)
      else
        var vm1 := vm.(frames := frames);
        if !HasTable(vm.spaces, l) then
          if !tableOk || l.pid !in vm.spaces || l.dir >= |vm.spaces[l.pid]| then
            GiveBack(vm1, frame, MallocFail)
          else
            var vm2 := vm1.(spaces := InstallTable(vm1.spaces, l.pid, l.dir));
            (Put(vm2, l, NewEntry(Entry(vm2.spaces, l), t, vm.zeroPpn, ref, frame)), Success)
        else if Entry(vm.spaces, l).present then GiveBack(vm1, frame, PageAlreadyPresent)
        else (Put(vm1, l, NewEntry(Entry(vm.spaces, l), t, vm.zeroPpn, ref, frame)), Success)
  }

  /** destroy_page (kern/vm/page.c:339-361). */
  function DestroyPage(vm: Vm, l: Loc): (Vm, Status) {
    var e := Entry(vm.spaces, l);
    if !HasTable(vm.spaces, l) then (vm, DirectoryNotPresent)
    else if !e.present then (vm, PageNotPresent)
    else if e.global || !e.user then (vm, KernelPage)
    else
      var (frames, err) := FreeFrame(vm.frames, FrameId(e.ppn));
      (Put(vm, l, NO_PTE).(frames := frames), if err.Ok? then Success else Panic)
  }

  // ----- user writes and page faults -----

  /** copy_on_write (kern/vm/frame.c:199-244).  Its error codes are ignored by
      the only caller, so only the new state is modelled. */
  function CopyOnWrite(vm: Vm, l: Loc): Vm {
    var e := Entry(vm.spaces, l);
    var src := FrameId(e.ppn);
    if src < 0 || |vm.frames.counts| <= src then vm
    else if vm.frames.counts[src] <= 1 then vm
    else
      var (frames, frame) := Allocate(vm.frames);
      if frame.None? then vm
      else
        var vm1 := Put(SetFrame(vm, frame.value, Contents(vm, e)), l, e.(ppn := USER_PPN + frame.value));
        var counts := frames.counts;
        vm1.(frames := Frames(if counts[src] > 0 then counts[src := counts[src] - 1] else counts, frames.next))
  }

  datatype Outcome = Resumed | Killed

  /** The zero-fill and copy-on-write part of the fault handler
      (kern/vm/page.c:372-400); every other fault ends in a user handler or
      kills the thread. */
  function PageFault(vm: Vm, l: Loc): (Vm, Outcome) {
    var e := Entry(vm.spaces, l);
    if !HasTable(vm.spaces, l) then (vm, Killed)
    else if e.zero then
      var (frames, frame) := Allocate(vm.frames);
      if frame.None? then (vm, Killed)
      else
        (SetFrame(Put(vm.(frames := frames), l, e.(zero := false, rw := true, ppn := USER_PPN + frame.value)),
                  frame.value, ZeroFill()),
         Resumed)
    else if e.cow then (CopyOnWrite(Put(vm, l, e.(cow := false, rw := true)), l), Resumed)
    else (vm, Killed)
  }

  /** The processor lets user code write to `l`. */
  predicate UserWritable(vm: Vm, l: Loc) {
    && HasTable(vm.spaces, l)
    && vm.spaces[l.pid][l.dir].user && vm.spaces[l.pid][l.dir].rw
    && Mapped(Entry(vm.spaces, l)) && Entry(vm.spaces, l).rw
  }

  /** One byte written through the mapping at `l`. */
  function Store(vm: Vm, l: Loc, off: nat, v: bv8): Vm {
    var e := Entry(vm.spaces, l);
    var f := FrameId(e.ppn);
    if 0 <= f < |vm.mem| then
      if off < |vm.mem[f]| then SetFrame(vm, f, vm.mem[f][off := v]) else vm
    else if e.ppn == vm.zeroPpn && off < |vm.zeroPage| then vm.(zeroPage := vm.zeroPage[off := v])
    else vm
  }

  /** A user instruction that writes one byte, with the fault it may take; the
      result says whether the write was carried out. */
  function UserWrite(vm: Vm, l: Loc, off: nat, v: bv8): (Vm, bool) {
    if UserWritable(vm, l) then (Store(vm, l, off, v), true)
    else
      var (vm1, outcome) := PageFault(vm, l);
      if outcome.Resumed? && UserWritable(vm1, l) then (Store(vm1, l, off, v), true)
      else (vm1, false)
  }

  // ----- fork -----

  /** The body of copy_paging's inner loop (kern/vm/page.c:551-613): entry
      `(i, j)` of the parent is shared with, or copied for, the child. */
  function CopyEntry(vm: Vm, parent: nat, child: nat, i: nat, j: nat): Vm {
    var p, c := Loc(parent, i, j), Loc(child, i, j);
    var e := Entry(vm.spaces, p);
    if !e.present || !e.user then vm
    else
      var (frames, err) := GetFrame(vm.frames, FrameId(e.ppn));
      if err.KernelFrame? then Put(vm, c, e)
      else if err.TooManyOwners? then
        var (frames1, frame) := Allocate(vm.frames);
        if frame.None? then Put(vm, c, e)
        else
          SetFrame(Put(vm.(frames := frames1), c, e.(rw := true, cow := false, ppn := USER_PPN + frame.value)),
                   frame.value, Contents(vm, e))
      else if e.rw then
        var shared := e.(rw := false, cow := true);
        Put(Put(vm.(frames := frames), p, shared), c, shared)
      else Put(vm.(frames := frames), c, e)
  }

  /** The first `j` entries of directory `i`. */
  function CopyEntries(vm: Vm, parent: nat, child: nat, i: nat, j: nat): Vm {
    if j == 0 then vm else CopyEntry(CopyEntries(vm, parent, child, i, j - 1), parent, child, i, j - 1)
  }

  /** The parent's directory `i` holds user pages. */
  predicate UserDir(vm: Vm, p: nat, i: nat) {
    p in vm.spaces && i < |vm.spaces[p]| && vm.spaces[p][i].present && vm.spaces[p][i].user
  }

  function CopyDir(vm: Vm, parent: nat, child: nat, i: nat): Vm {
    if !UserDir(vm, parent, i) || child !in vm.spaces || |vm.spaces[child]| <= i then vm
    else CopyEntries(vm.(spaces := InstallTable(vm.spaces, child, i)), parent, child, i, ENTRIES)
  }

  /** The first `n` directories. */
  function CopyDirs(vm: Vm, parent: nat, child: nat, n: nat): Vm {
    if n == 0 then vm else CopyDir(CopyDirs(vm, parent, child, n - 1), parent, child, n - 1)
  }

  /** fork as far as memory goes: init_paging for the child, then copy_paging
      (kern/prog/process.c:128-141, kern/vm/page.c:507-626).  `n < ENTRIES`
      models a page table allocation that fails at directory `n`: the child's
      half-built tables stay behind, since destroy_process refuses a process
      that has not exited. */
  function Fork(vm: Vm, parent: nat, child: nat, n: nat): Vm {
    CopyDirs(vm.(spaces := vm.spaces[child := InitSpace(vm.zeroPpn)]), parent, child, n)
  }

  // ----- reset and teardown -----

  /** One entry released, by reset_paging or destroy_paging: kernel, absent and
      zero-page entries are skipped. */
  function ReleaseEntry(vm: Vm, l: Loc): Vm {
    var e := Entry(vm.spaces, l);
    if !e.present || e.global || !e.user || e.zero then vm
    else Put(vm, l, NO_PTE).(frames := FreeFrame(vm.frames, FrameId(e.ppn)).0)
  }

  function ReleaseEntries(vm: Vm, p: nat, i: nat, j: nat): Vm {
    if j == 0 then vm else ReleaseEntry(ReleaseEntries(vm, p, i, j - 1), Loc(p, i, j - 1))
  }

  /** One directory of reset_paging (kern/vm/page.c:177-208). */
  function ResetDir(vm: Vm, p: nat, i: nat): Vm {
    if !UserDir(vm, p, i) then vm
    else
      var vm1 := ReleaseEntries(vm, p, i, ENTRIES);
      if !UserDir(vm1, p, i) || vm1.spaces[p][i].kernel then vm1
      else vm1.(spaces := SetPde(vm1.spaces, p, i, NO_PDE))
  }

  function ResetDirs(vm: Vm, p: nat, n: nat): Vm {
    if n == 0 then vm else ResetDir(ResetDirs(vm, p, n - 1), p, n - 1)
  }

  /** reset_paging (kern/vm/page.c:168-212). */
  function Reset(vm: Vm, p: nat): Vm {
    ResetDirs(vm, p, ENTRIES)
  }

  function ReleaseDirs(vm: Vm, p: nat, n: nat): Vm {
    if n == 0 then vm else ReleaseEntries(ReleaseDirs(vm, p, n - 1), p, n - 1, ENTRIES)
  }

  /** destroy_paging (kern/vm/page.c:634-673): every owned frame is released and
      the tables themselves are freed. */
  function Teardown(vm: Vm, p: nat): Vm {
    var vm1 := ReleaseDirs(vm, p, ENTRIES);
    vm1.(spaces := vm1.spaces - {p})
  }
}

/** Two-level page tables (kern/vm/page.c, kern/inc/page.h) as values: what an
    entry holds, where it sits, and which entries own a physical frame. */
module PageTables {
  import Collections

  /** Entries of a page directory, and of a page table. */
  const ENTRIES := 1024
  /** Directories below USER_MEM_START (16 MB). */
  const KERNEL_DIRS := 4
  /** Physical pages below USER_MEM_START; frame `f` is physical page
      USER_PPN + f. */
  const USER_PPN := 4096

  /** A page table entry: its flags and the physical page it maps. */
  datatype Pte = Pte(present: bool, rw: bool, user: bool, global: bool, zero: bool, cow: bool, ppn: nat)

  const NO_PTE := Pte(false, false, false, false, false, false, 0)

  /** A page directory entry: its flags and the page table it links. */
  datatype Pde = Pde(present: bool, rw: bool, user: bool, kernel: bool, table: seq<Pte>)

  const NO_PDE := Pde(false, false, false, false, [])

  type Space = seq<Pde>
  type Spaces = map<nat, Space>

  /** Virtual page `dir * ENTRIES + idx` of process `pid`. */
  datatype Loc = Loc(pid: nat, dir: nat, idx: nat)

  function EmptyTable(): (t: seq<Pte>)
    ensures |t| == ENTRIES && forall j :: 0 <= j < ENTRIES ==> t[j] == NO_PTE
  {
    seq(ENTRIES, _ => NO_PTE)
  }

  /** FRAME_ID: -1 for a page of the kernel. */
  function FrameId(ppn: nat): int {
    if ppn < USER_PPN then -1 else ppn - USER_PPN
  }

  // ----- addresses -----

  const PAGE_BYTES := 4096
  /** Pages of a 32-bit address space. */
  const PAGES := 1048576
  const USER_MEM_START := 0x01000000

  /** PDE_OFFSET, PTE_OFFSET: where the entry of byte address `va` sits. */
  function LocOf(pid: nat, va: nat): Loc {
    Loc(pid, va / 0x400000, (va / PAGE_BYTES) % ENTRIES)
  }

  /** The address the two offsets stand for. */
  function AddressOf(l: Loc): nat {
    (l.dir * ENTRIES + l.idx) * PAGE_BYTES
  }

  /** FRAME_ADDR */
  function FrameAddr(f: nat): nat {
    f * PAGE_BYTES + USER_MEM_START
  }

  /** The offsets split page addresses without loss: both ways round, and the
      kernel half is exactly the first four directories. */
  lemma OffsetsBijective(pid: nat, va: nat, l: Loc)
    requires va < PAGES * PAGE_BYTES && l.pid == pid && l.dir < ENTRIES && l.idx < ENTRIES
    ensures LocOf(pid, va).dir < ENTRIES && LocOf(pid, va).idx < ENTRIES
    ensures AddressOf(LocOf(pid, va)) == va - va % PAGE_BYTES
    ensures LocOf(pid, AddressOf(l)) == l
    ensures va < USER_MEM_START <==> LocOf(pid, va).dir < KERNEL_DIRS
  {
    var vpn := va / PAGE_BYTES;
    assert va / 0x400000 == vpn / ENTRIES;
    assert AddressOf(l) / PAGE_BYTES == l.dir * ENTRIES + l.idx;
  }

  /** FRAME_ID inverts FRAME_ADDR. */
  lemma FrameIdInverse(f: nat)
    ensures FrameAddr(f) % PAGE_BYTES == 0
    ensures FrameId(FrameAddr(f) / PAGE_BYTES) == f
  {
    assert FrameAddr(f) == (f + USER_PPN) * PAGE_BYTES;
  }

  // ----- lookup -----

  /** The directory covering `l` is present: get_pte is not NULL. */
  predicate HasTable(ss: Spaces, l: Loc) {
    && l.pid in ss
    && l.dir < ENTRIES && l.dir < |ss[l.pid]|
    && l.idx < ENTRIES && l.idx < |ss[l.pid][l.dir].table|
    && ss[l.pid][l.dir].present
  }

  /** The entry at `l`; all zeroes where there is no page table. */
  function Entry(ss: Spaces, l: Loc): Pte {
    if HasTable(ss, l) then ss[l.pid][l.dir].table[l.idx] else NO_PTE
  }

  predicate Mapped(e: Pte) {
    e.present && e.user
  }

  /** The entry keeps a count on a user frame. */
  predicate Owning(e: Pte) {
    e.present && e.user && !e.zero && e.ppn >= USER_PPN
  }

  predicate Owns(e: Pte, f: nat) {
    Owning(e) && e.ppn == USER_PPN + f
  }

  /** Every entry, of any address space, that maps frame `f`. */
  ghost function Owners(ss: Spaces, f: nat): set<Loc> {
    set p, i, j | p in ss && 0 <= i < ENTRIES && 0 <= j < ENTRIES && Owns(Entry(ss, Loc(p, i, j)), f)
      :: Loc(p, i, j)
  }

  lemma OwnersMember(ss: Spaces, f: nat, l: Loc)
    ensures l in Owners(ss, f) <==> Owns(Entry(ss, l), f)
  {
    assert l == Loc(l.pid, l.dir, l.idx);
  }

  // ----- updates -----

  /** Writes one entry of an existing page table. */
  function SetEntry(ss: Spaces, l: Loc, e: Pte): (r: Spaces)
    requires HasTable(ss, l)
    ensures r.Keys == ss.Keys
    ensures Entry(r, l) == e
  {
    var pde := ss[l.pid][l.dir];
    ss[l.pid := ss[l.pid][l.dir := pde.(table := pde.table[l.idx := e])]]
  }

  /** Replaces one page directory entry. */
  function SetPde(ss: Spaces, pid: nat, dir: nat, pde: Pde): (r: Spaces)
    requires pid in ss && dir < |ss[pid]|
    ensures r.Keys == ss.Keys
  {
    ss[pid := ss[pid][dir := pde]]
  }

  /** Links a zeroed page table into directory `dir`. */
  function InstallTable(ss: Spaces, pid: nat, dir: nat): (r: Spaces)
    requires pid in ss && dir < |ss[pid]|
    ensures r.Keys == ss.Keys
  {
    SetPde(ss, pid, dir, ss[pid][dir].(present := true, rw := true, user := true, table := EmptyTable()))
  }

  lemma SetEntryElsewhere(ss: Spaces, l: Loc, e: Pte)
    requires HasTable(ss, l)
    ensures forall m :: m != l ==> Entry(SetEntry(ss, l, e), m) == Entry(ss, m)
    ensures forall m :: HasTable(SetEntry(ss, l, e), m) <==> HasTable(ss, m)
  {
  }

  lemma InstallTableEntries(ss: Spaces, pid: nat, dir: nat)
    requires pid in ss && dir < |ss[pid]| && !ss[pid][dir].present
    ensures forall m :: Entry(InstallTable(ss, pid, dir), m) == Entry(ss, m)
    ensures forall m :: HasTable(ss, m) ==> HasTable(InstallTable(ss, pid, dir), m)
  {
  }

  // ----- how the owners of a frame change -----

  /** Only the entry at `l` changed: the owners of each frame change by `l`
      alone. */
  lemma OwnersAfterUpdate(ss: Spaces, ss': Spaces, l: Loc, f: nat)
    requires forall m :: m != l ==> Entry(ss', m) == Entry(ss, m)
    ensures |Owners(ss', f)| == |Owners(ss, f)|
      - (if Owns(Entry(ss, l), f) then 1 else 0) + (if Owns(Entry(ss', l), f) then 1 else 0)
  {
    var before, after := Owners(ss, f), Owners(ss', f);
    forall m ensures (m in before <==> Owns(Entry(ss, m), f)) && (m in after <==> Owns(Entry(ss', m), f)) {
      OwnersMember(ss, f, m);
      OwnersMember(ss', f, m);
    }
    Collections.SizeAfterToggle(before, after, l);
  }

  /** No owning entry changed: the owners are the same. */
  lemma OwnersUnchanged(ss: Spaces, ss': Spaces, f: nat)
    requires forall m :: Entry(ss', m) == Entry(ss, m) || (!Owning(Entry(ss', m)) && !Owning(Entry(ss, m)))
    ensures Owners(ss', f) == Owners(ss, f)
  {
    forall m ensures m in Owners(ss, f) <==> m in Owners(ss', f) {
      OwnersMember(ss, f, m);
      OwnersMember(ss', f, m);
      assert Entry(ss', m) == Entry(ss, m) || (!Owning(Entry(ss', m)) && !Owning(Entry(ss, m)));
    }
  }

  // ----- the kernel half -----

  /** The page table of kernel directory `dir`: every page maps itself, global
      and without user access; only the zero frame is read-only. */
  function KernelPde(dir: nat, zeroPpn: nat): Pde {
    Pde(true, false, false, true,
        seq(ENTRIES, j requires 0 <= j => Pte(true, dir * ENTRIES + j != zeroPpn, false, true, false, false, dir * ENTRIES + j)))
  }

  /** The address space init_paging builds (kern/vm/page.c:91-160). */
  function InitSpace(zeroPpn: nat): (s: Space)
    ensures |s| == ENTRIES
  {
    seq(ENTRIES, i requires 0 <= i => if i < KERNEL_DIRS then KernelPde(i, zeroPpn) else NO_PDE)
  }

  /** The shape every address space keeps: the kernel half is as built, and the
      other directories are empty or hold user page tables. */
  ghost predicate SpaceShape(s: Space, zeroPpn: nat) {
    && |s| == ENTRIES
    && (forall i :: 0 <= i < KERNEL_DIRS ==> s[i] == KernelPde(i, zeroPpn))
    && (forall i :: KERNEL_DIRS <= i < ENTRIES && s[i].present ==>
          s[i].user && s[i].rw && !s[i].kernel && |s[i].table| == ENTRIES)
    && (forall i :: KERNEL_DIRS <= i < ENTRIES && !s[i].present ==> s[i] == NO_PDE)
  }

  ghost predicate Shaped(ss: Spaces, zeroPpn: nat) {
    forall p :: p in ss ==> SpaceShape(ss[p], zeroPpn)
  }

  lemma InitSpaceShape(zeroPpn: nat)
    ensures SpaceShape(InitSpace(zeroPpn), zeroPpn)
  {
  }

  lemma SetEntryShape(ss: Spaces, l: Loc, e: Pte, zeroPpn: nat)
    requires Shaped(ss, zeroPpn) && HasTable(ss, l) && l.dir >= KERNEL_DIRS
    ensures Shaped(SetEntry(ss, l, e), zeroPpn)
  {
  }

  lemma InstallTableShape(ss: Spaces, pid: nat, dir: nat, zeroPpn: nat)
    requires Shaped(ss, zeroPpn) && pid in ss && KERNEL_DIRS <= dir < ENTRIES && !ss[pid][dir].present
    ensures Shaped(InstallTable(ss, pid, dir), zeroPpn)
  {
  }

  /** In an address space of that shape every kernel address translates to itself and is
      not open to user code, and exactly the zero frame is read-only. */
  lemma KernelHalfIdentity(ss: Spaces, l: Loc, zeroPpn: nat)
    requires Shaped(ss, zeroPpn) && l.pid in ss && l.dir < KERNEL_DIRS && l.idx < ENTRIES
    ensures HasTable(ss, l)
    ensures Entry(ss, l).present && Entry(ss, l).global && !Entry(ss, l).user
    ensures Entry(ss, l).ppn == l.dir * ENTRIES + l.idx < USER_PPN
    ensures Entry(ss, l).rw <==> l.dir * ENTRIES + l.idx != zeroPpn
    ensures !Entry(ss, l).zero && !Entry(ss, l).cow
    ensures !ss[l.pid][l.dir].user && !ss[l.pid][l.dir].rw && ss[l.pid][l.dir].kernel
  {
    assert ss[l.pid][l.dir] == KernelPde(l.dir, zeroPpn);
  }
}

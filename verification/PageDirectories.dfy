/** The page directories and page tables in memory: arrays of entries, one directory
    per process, each entry of which may point to a page table.  A store changes one
    slot of one array; `Directories` shows what it changes in the address spaces. */
module PageDirectories {
  import opened PageTables

  /** A page directory entry as it lies in memory. */
  datatype Slot = Slot(present: bool, rw: bool, user: bool, kernel: bool, table: array?<Pte>)

  const NO_SLOT := Slot(false, false, false, false, null)

  /** What a directory entry stands for. */
  ghost function PdeOf(slot: Slot): (r: Pde)
    reads if slot.table != null then {slot.table} else {}
  {
    Pde(slot.present, slot.rw, slot.user, slot.kernel, if slot.table != null then slot.table[..] else [])
  }

  ghost predicate SlotOk(slot: Slot) {
    (slot.present <==> slot.table != null) && (slot.table != null ==> slot.table.Length == ENTRIES)
  }

  /** Address spaces that differ in the one entry at `l`. */
  lemma SetEntryIs(ss: Spaces, ss': Spaces, l: Loc, e: Pte)
    requires HasTable(ss, l) && ss'.Keys == ss.Keys
    requires forall p :: p in ss ==> |ss[p]| == ENTRIES && |ss'[p]| == ENTRIES
    requires forall p, i: nat :: p in ss && i < ENTRIES && (p != l.pid || i != l.dir) ==> ss'[p][i] == ss[p][i]
    requires var pde := ss[l.pid][l.dir];
      ss'[l.pid][l.dir] == pde.(table := pde.table[l.idx := e])
    ensures ss' == SetEntry(ss, l, e)
  {
    var r := SetEntry(ss, l, e);
    forall p | p in ss
      ensures ss'[p] == r[p]
    {
      assert forall i: nat :: i < ENTRIES ==> ss'[p][i] == r[p][i];
    }
  }

  lemma SetPdeIs(ss: Spaces, ss': Spaces, pid: nat, dir: nat, pde: Pde)
    requires pid in ss && dir < ENTRIES && ss'.Keys == ss.Keys
    requires forall p :: p in ss ==> |ss[p]| == ENTRIES && |ss'[p]| == ENTRIES
    requires forall p, i: nat :: p in ss && i < ENTRIES && (p != pid || i != dir) ==> ss'[p][i] == ss[p][i]
    requires ss'[pid][dir] == pde
    ensures ss' == SetPde(ss, pid, dir, pde)
  {
    var r := SetPde(ss, pid, dir, pde);
    forall p | p in ss
      ensures ss'[p] == r[p]
    {
      assert forall i: nat :: i < ENTRIES ==> ss'[p][i] == r[p][i];
    }
  }

  /** A zeroed page table. */
  method NewTable() returns (table: array<Pte>)
    ensures fresh(table) && table[..] == EmptyTable()
  {
    table := new Pte[ENTRIES](_ => NO_PTE);
  }

  /** An entry of the kernel half, before the zero frame is protected. */
  function IdentityPte(ppn: nat): Pte {
    Pte(true, true, false, true, false, false, ppn)
  }

  /** The inner loop of init_paging: the page table of kernel directory `dir`. */
  method KernelTable(dir: nat) returns (table: array<Pte>)
    ensures fresh(table) && table.Length == ENTRIES
    ensures forall k :: 0 <= k < ENTRIES ==> table[k] == IdentityPte(dir * ENTRIES + k)
  {
    table := new Pte[ENTRIES](_ => NO_PTE);
    for j := 0 to ENTRIES
      invariant forall k :: 0 <= k < j ==> table[k] == IdentityPte(dir * ENTRIES + k)
    {
      table[j] := IdentityPte(dir * ENTRIES + j);
    }
  }

  /** Directory entry `i` of the kernel half, with a table of identity entries. */
  ghost predicate IdentitySlot(slot: Slot, i: nat)
    reads if slot.table != null then {slot.table} else {}
  {
    && slot == Slot(true, false, false, true, slot.table) && slot.table != null && slot.table.Length == ENTRIES
    && forall k :: 0 <= k < ENTRIES ==> slot.table[k] == IdentityPte(i * ENTRIES + k)
  }

  /** The outer loop of init_paging. */
  method KernelDirectory() returns (cr3: array<Slot>)
    ensures fresh(cr3) && cr3.Length == ENTRIES
    ensures forall i :: KERNEL_DIRS <= i < ENTRIES ==> cr3[i] == NO_SLOT
    ensures forall i :: 0 <= i < KERNEL_DIRS ==> IdentitySlot(cr3[i], i) && fresh(cr3[i].table)
    ensures forall i, j :: 0 <= i < j < KERNEL_DIRS ==> cr3[i].table != cr3[j].table
  {
    cr3 := new Slot[ENTRIES](_ => NO_SLOT);
    for i := 0 to ENTRIES
      invariant cr3.Length == ENTRIES && fresh(cr3)
      invariant forall d :: i <= d < ENTRIES || KERNEL_DIRS <= d < ENTRIES ==> cr3[d] == NO_SLOT
      invariant forall d :: 0 <= d < i && d < KERNEL_DIRS ==> IdentitySlot(cr3[d], d) && fresh(cr3[d].table)
      invariant forall d, e :: 0 <= d < e < i && e < KERNEL_DIRS ==> cr3[d].table != cr3[e].table
    {
      if i < KERNEL_DIRS {
        var table := KernelTable(i);
        cr3[i] := Slot(true, false, false, true, table);
      }
    }
  }

  /** A directory whose entries stand for the address space `sp`; its tables are all
      different. */
  ghost predicate NewSpace(cr3: array<Slot>, tables: seq<array<Pte>>, sp: Space)
    reads cr3, tables
  {
    && cr3.Length == ENTRIES && |sp| == ENTRIES && |tables| == KERNEL_DIRS
    && (forall i :: 0 <= i < KERNEL_DIRS ==> cr3[i].table == tables[i] && cr3[i].present && tables[i].Length == ENTRIES)
    && (forall i :: KERNEL_DIRS <= i < ENTRIES ==> cr3[i] == NO_SLOT && sp[i] == NO_PDE)
    && (forall i :: 0 <= i < KERNEL_DIRS ==> PdeOf(cr3[i]) == sp[i])
    && (forall i, j :: 0 <= i < j < KERNEL_DIRS ==> tables[i] != tables[j])
  }

  /** init_paging: the kernel half, then the zero frame becomes read-only. */
  method InitPaging(zeroPpn: nat) returns (cr3: array<Slot>, ghost tables: seq<array<Pte>>)
    requires zeroPpn < USER_PPN
    ensures fresh(cr3) && NewSpace(cr3, tables, InitSpace(zeroPpn))
    ensures forall t :: t in tables ==> fresh(t)
  {
    cr3 := KernelDirectory();
    var d, k := zeroPpn / ENTRIES, zeroPpn % ENTRIES;
    assert d < KERNEL_DIRS && d * ENTRIES + k == zeroPpn;
    assert IdentitySlot(cr3[d], d);
    var table := cr3[d].table;
    table[k] := table[k].(rw := false);
    forall i | 0 <= i < KERNEL_DIRS
      ensures cr3[i].table != null && PdeOf(cr3[i]) == KernelPde(i, zeroPpn)
    {
      assert i != d ==> cr3[i].table != table;
      Protected(cr3[i].table[..], i, zeroPpn);
    }
    tables := [cr3[0].table, cr3[1].table, cr3[2].table, cr3[3].table];
  }

  lemma Protected(table: seq<Pte>, i: nat, zeroPpn: nat)
    requires |table| == ENTRIES
    requires forall k :: 0 <= k < ENTRIES ==>
      table[k] == IdentityPte(i * ENTRIES + k).(rw := i != zeroPpn / ENTRIES || k != zeroPpn % ENTRIES)
    ensures table == KernelPde(i, zeroPpn).table
  {
    forall k | 0 <= k < ENTRIES
      ensures table[k] == KernelPde(i, zeroPpn).table[k]
    {
      assert i * ENTRIES + k == zeroPpn <==> i == zeroPpn / ENTRIES && k == zeroPpn % ENTRIES;
    }
  }

  lemma SpaceAdded(ss: Spaces, ss': Spaces, pid: nat, sp: Space)
    requires pid !in ss && ss'.Keys == ss.Keys + {pid} && |sp| == ENTRIES
    requires (forall p :: p in ss ==> |ss[p]| == ENTRIES) && (forall p :: p in ss' ==> |ss'[p]| == ENTRIES)
    requires forall p, i: nat :: p in ss && i < ENTRIES ==> ss'[p][i] == ss[p][i]
    requires forall i: nat :: i < ENTRIES ==> ss'[pid][i] == sp[i]
    ensures ss' == ss[pid := sp]
  {
    assert ss'[pid] == sp;
    forall p | p in ss
      ensures ss'[p] == ss[p]
    {
      assert forall i: nat :: i < ENTRIES ==> ss'[p][i] == ss[p][i];
    }
  }

  /** The tables of the kernel half of process `pid` are housed in it. */
  ghost function Housed(home: map<array<Pte>, (nat, nat)>, tables: seq<array<Pte>>, pid: nat): (r: map<array<Pte>, (nat, nat)>)
    requires |tables| == KERNEL_DIRS && forall i, j :: 0 <= i < j < KERNEL_DIRS ==> tables[i] != tables[j]
    ensures r.Keys == home.Keys + set t | t in tables
    ensures forall i :: 0 <= i < KERNEL_DIRS ==> r[tables[i]] == (pid, i)
    ensures forall t :: t in home && t !in tables ==> r[t] == home[t]
  {
    home[tables[0] := (pid, 0)][tables[1] := (pid, 1)][tables[2] := (pid, 2)][tables[3] := (pid, 3)]
  }

  lemma NewTables(cr3: array<Slot>, tables: seq<array<Pte>>, sp: Space)
    requires NewSpace(cr3, tables, sp)
    ensures |tables| == KERNEL_DIRS && forall i, j :: 0 <= i < j < KERNEL_DIRS ==> tables[i] != tables[j]
  {
  }

  class Directories {
    /** The directory of each process. */
    var cr3: map<nat, array<Slot>>
    /** Whose directory an array is, and which directory entry points to a table: no
        two processes share a directory, no two entries a table. */
    ghost var owner: map<array<Slot>, nat>
    ghost var home: map<array<Pte>, (nat, nat)>
    /** All directories and all tables. */
    ghost var dirs: set<array<Slot>>
    ghost var leaves: set<array<Pte>>

    /** The directory of process `p` and the tables it points to. */
    ghost predicate SpaceOk(p: nat)
      requires p in cr3
      reads this, dirs
    {
      && cr3[p].Length == ENTRIES
      && cr3[p] in dirs && cr3[p] in owner && owner[cr3[p]] == p
      && (forall i :: 0 <= i < ENTRIES ==> SlotOk(cr3[p][i]))
      && (forall i :: 0 <= i < ENTRIES && cr3[p][i].table != null ==>
            cr3[p][i].table in leaves && cr3[p][i].table in home && home[cr3[p][i].table] == (p, i))
    }

    ghost predicate Valid()
      reads this, dirs
    {
      && (forall p :: p in cr3 ==> cr3[p] in dirs)
      && (forall p :: p in cr3 ==> SpaceOk(p))
    }

    ghost function SpaceOf(p: nat): (r: Space)
      requires p in cr3 && Valid()
      reads this, dirs, leaves
      ensures |r| == ENTRIES && forall i :: 0 <= i < ENTRIES ==> r[i] == PdeOf(cr3[p][i])
    {
      assert SpaceOk(p);
      seq(ENTRIES, i requires 0 <= i < ENTRIES && p in cr3 && SpaceOk(p) reads this, dirs, leaves => PdeOf(cr3[p][i]))
    }

    ghost function View(): (r: Spaces)
      requires Valid()
      reads this, dirs, leaves
      ensures r.Keys == cr3.Keys && forall p :: p in cr3 ==> r[p] == SpaceOf(p)
    {
      map p | p in cr3 :: SpaceOf(p)
    }

    /** No process yet. */
    constructor ()
      ensures Valid() && cr3 == map[] && dirs == {} && leaves == {}
    {
      cr3, owner, home, dirs, leaves := map[], map[], map[], {}, {};
    }

    /** What the lookup functions say about the entry at `l`. */
    lemma EntryAt(l: Loc)
      requires Valid()
      ensures HasTable(View(), l) <==> l.pid in cr3 && l.dir < ENTRIES && l.idx < ENTRIES && cr3[l.pid][l.dir].present
      ensures HasTable(View(), l) ==> cr3[l.pid][l.dir].table != null && Entry(View(), l) == cr3[l.pid][l.dir].table[l.idx]
      ensures !HasTable(View(), l) ==> Entry(View(), l) == NO_PTE
    {
      if l.pid in cr3 {
        assert SpaceOk(l.pid);
        assert View()[l.pid] == SpaceOf(l.pid);
        if l.dir < ENTRIES {
          assert SlotOk(cr3[l.pid][l.dir]);
          assert SpaceOf(l.pid)[l.dir] == PdeOf(cr3[l.pid][l.dir]);
        }
      }
    }

    /** get_pte, and the load through it. */
    method Lookup(l: Loc) returns (found: bool, e: Pte)
      requires Valid()
      ensures found == HasTable(View(), l) && e == Entry(View(), l)
    {
      hide Entry;
      EntryAt(l);
      if l.pid in cr3 && l.dir < ENTRIES && l.idx < ENTRIES {
        assert SpaceOk(l.pid);
        var slot := cr3[l.pid][l.dir];
        if slot.present {
          return true, slot.table[l.idx];
        }
      }
      return false, NO_PTE;
    }

    /** The address space `sp` is what the directory of process `p` stands for. */
    ghost predicate Shows(p: nat, sp: Space)
      requires p in cr3 && Valid()
      reads this, dirs, leaves
    {
      |sp| == ENTRIES && SpaceOk(p) && forall i :: 0 <= i < ENTRIES ==> sp[i] == PdeOf(cr3[p][i])
    }

    lemma ViewIs(ss: Spaces)
      requires Valid() && ss.Keys == cr3.Keys && forall p :: p in cr3 ==> Shows(p, ss[p])
      ensures View() == ss
    {
      forall p | p in cr3
        ensures View()[p] == ss[p]
      {
        assert Shows(p, ss[p]);
      }
    }

    /** What directory entry `i` of process `p` stands for. */
    ghost function PdeAt(p: nat, i: nat): Pde
      requires p in cr3 && i < ENTRIES && Valid()
      reads this, dirs, leaves
    {
      assert SpaceOk(p);
      PdeOf(cr3[p][i])
    }

    lemma Views(p: nat, i: nat)
      requires Valid() && p in cr3 && i < ENTRIES
      ensures p in View() && |View()[p]| == ENTRIES && View()[p][i] == PdeAt(p, i)
    {
      assert View()[p] == SpaceOf(p);
    }

    /** The store: it changes what one directory entry stands for. */
    method Store(table: array<Pte>, idx: nat, e: Pte, ghost pid: nat, ghost dir: nat)
      requires Valid() && pid in cr3 && dir < ENTRIES && SpaceOk(pid) && cr3[pid][dir].table == table && idx < ENTRIES
      modifies table
      ensures Valid()
      ensures PdeAt(pid, dir) == old(PdeAt(pid, dir)).(table := old(PdeAt(pid, dir)).table[idx := e])
      ensures forall p, i: nat :: p in cr3 && i < ENTRIES && (p != pid || i != dir) ==> PdeAt(p, i) == old(PdeAt(p, i))
    {
      assert SlotOk(cr3[pid][dir]);
      table[idx] := e;
      assert table[..] == old(table[..])[idx := e];
      forall p, i: nat | p in cr3 && i < ENTRIES && (p != pid || i != dir)
        ensures PdeAt(p, i) == old(PdeAt(p, i))
      {
        assert SpaceOk(p);
        assert cr3[p][i].table != table;
      }
    }

    lemma AllViews()
      requires Valid()
      ensures View().Keys == cr3.Keys && forall p :: p in cr3 ==> |View()[p]| == ENTRIES
      ensures forall p, i: nat :: p in cr3 && i < ENTRIES ==> View()[p][i] == PdeAt(p, i)
    {
      forall p | p in cr3
        ensures |View()[p]| == ENTRIES
      {
        Views(p, 0);
      }
      forall p, i: nat | p in cr3 && i < ENTRIES
        ensures View()[p][i] == PdeAt(p, i)
      {
        Views(p, i);
      }
    }

    method PutInto(table: array<Pte>, l: Loc, e: Pte)
      requires Valid() && HasTable(View(), l) && l.pid in cr3 && SpaceOk(l.pid) && cr3[l.pid][l.dir].table == table
      modifies table
      ensures Valid() && View() == SetEntry(old(View()), l, e)
    {
      hide Entry;
      hide SetEntry;
      hide Valid;
      hide View;
      hide PdeAt;
      ghost var ss := View();
      AllViews();
      Store(table, l.idx, e, l.pid, l.dir);
      AllViews();
      SetEntryIs(ss, View(), l, e);
    }

    /** A store to one slot of one page table changes exactly the entry at `l`. */
    method Put(l: Loc, e: Pte)
      requires Valid()
      modifies leaves
      ensures Valid() && View() == if HasTable(old(View()), l) then SetEntry(old(View()), l, e) else old(View())
    {
      hide View;
      hide HasTable;
      hide SetEntry;
      EntryAt(l);
      if l.pid in cr3 && l.dir < ENTRIES && l.idx < ENTRIES {
        assert SpaceOk(l.pid);
        var slot := cr3[l.pid][l.dir];
        if slot.present {
          PutInto(slot.table, l, e);
        }
      }
    }

    /** The store of a directory entry; its table, if any, is a new one. */
    method SetSlot(pid: nat, dir: nat, slot: Slot)
      requires Valid() && pid in cr3 && dir < ENTRIES && SlotOk(slot) && (slot.table != null ==> slot.table !in leaves)
      modifies this`home, this`leaves, dirs
      ensures Valid() && leaves == old(leaves) + if slot.table == null then {} else {slot.table}
      ensures PdeAt(pid, dir) == old(PdeOf(slot))
      ensures forall p, i: nat :: p in cr3 && i < ENTRIES && (p != pid || i != dir) ==> PdeAt(p, i) == old(PdeAt(p, i))
    {
      assert SpaceOk(pid);
      cr3[pid][dir] := slot;
      if slot.table != null {
        home := home[slot.table := (pid, dir)];
        leaves := leaves + {slot.table};
      }
      forall p | p in cr3
        ensures SpaceOk(p)
      {
        assert old(SpaceOk(p));
        assert p != pid ==> cr3[p] != cr3[pid];
      }
      forall p, i: nat | p in cr3 && i < ENTRIES && (p != pid || i != dir)
        ensures PdeAt(p, i) == old(PdeAt(p, i))
      {
        assert old(SpaceOk(p));
      }
    }

    method PutPde(pid: nat, dir: nat, slot: Slot)
      requires Valid() && pid in cr3 && dir < ENTRIES && SlotOk(slot) && (slot.table != null ==> slot.table !in leaves)
      modifies this`home, this`leaves, dirs
      ensures Valid() && leaves == old(leaves) + if slot.table == null then {} else {slot.table}
      ensures pid in old(View()) && |old(View())[pid]| == ENTRIES && View() == SetPde(old(View()), pid, dir, old(PdeOf(slot)))
    {
      hide Valid;
      hide View;
      hide PdeAt;
      hide PdeOf;
      hide SetPde;
      ghost var ss := View();
      AllViews();
      SetSlot(pid, dir, slot);
      AllViews();
      SetPdeIs(ss, View(), pid, dir, old(PdeOf(slot)));
    }

    method LinkTable(pid: nat, dir: nat, table: array<Pte>)
      requires Valid() && pid in cr3 && dir < ENTRIES && table !in leaves && table[..] == EmptyTable()
      modifies this`home, this`leaves, dirs
      ensures Valid() && leaves == old(leaves) + {table}
      ensures pid in old(View()) && |old(View())[pid]| == ENTRIES && View() == InstallTable(old(View()), pid, dir)
    {
      hide View;
      hide SetPde;
      assert SpaceOk(pid);
      Views(pid, dir);
      assert table.Length == |table[..]|;
      var slot := cr3[pid][dir].(present := true, rw := true, user := true, table := table);
      PutPde(pid, dir, slot);
    }

    /** Links a zeroed page table into the directory. */
    method Install(pid: nat, dir: nat)
      requires Valid() && pid in cr3 && dir < ENTRIES
      modifies this`home, this`leaves, dirs
      ensures Valid() && fresh(leaves - old(leaves))
      ensures pid in old(View()) && |old(View())[pid]| == ENTRIES && View() == InstallTable(old(View()), pid, dir)
    {
      hide View;
      hide Valid;
      hide InstallTable;
      var table := NewTable();
      LinkTable(pid, dir, table);
    }

    /** Clears a directory entry. */
    method Clear(pid: nat, dir: nat)
      requires Valid() && pid in cr3 && dir < ENTRIES
      modifies this`home, this`leaves, dirs
      ensures Valid() && leaves == old(leaves)
      ensures pid in old(View()) && |old(View())[pid]| == ENTRIES && View() == SetPde(old(View()), pid, dir, NO_PDE)
    {
      hide View;
      PutPde(pid, dir, NO_SLOT);
    }

    /** The flags of a directory entry. */
    method Flags(pid: nat, dir: nat) returns (slot: Slot)
      requires Valid() && pid in cr3 && dir < ENTRIES
      ensures pid in View() && dir < |View()[pid]|
      ensures var pde := View()[pid][dir];
        slot.present == pde.present && slot.user == pde.user && slot.kernel == pde.kernel
    {
      assert SpaceOk(pid);
      Views(pid, dir);
      return cr3[pid][dir];
    }

    /** sfree of the directory and its tables. */
    method Drop(pid: nat)
      requires Valid()
      modifies this`cr3
      ensures Valid() && View() == old(View()) - {pid}
    {
      ghost var ss := View();
      cr3 := cr3 - {pid};
      forall p | p in cr3
        ensures SpaceOk(p)
      {
        assert old(SpaceOk(p));
      }
      forall p | p in cr3
        ensures View()[p] == ss[p]
      {
        assert old(SpaceOf(p)) == SpaceOf(p);
      }
    }

    /** The directory `dir` becomes that of process `pid`. */
    method Attach(pid: nat, dir: array<Slot>, ghost tables: seq<array<Pte>>, ghost sp: Space)
      requires Valid() && pid !in cr3 && dir !in dirs && NewSpace(dir, tables, sp) && forall t :: t in tables ==> t !in leaves
      modifies this
      ensures Valid() && cr3 == old(cr3)[pid := dir] && dirs == old(dirs) + {dir} && leaves == old(leaves) + set t | t in tables
      ensures |sp| == ENTRIES && forall i: nat :: i < ENTRIES ==> PdeAt(pid, i) == sp[i]
      ensures forall p, i: nat :: p in old(cr3) && i < ENTRIES ==> PdeAt(p, i) == old(PdeAt(p, i))
    {
      Move(pid, dir, tables, sp);
      hide NewSpace;
      forall p, i: nat | p in old(cr3) && i < ENTRIES
        ensures PdeAt(p, i) == old(PdeAt(p, i))
      {
        assert old(SpaceOk(p));
      }
    }

    method Move(pid: nat, dir: array<Slot>, ghost tables: seq<array<Pte>>, ghost sp: Space)
      requires Valid() && pid !in cr3 && dir !in dirs && NewSpace(dir, tables, sp) && forall t :: t in tables ==> t !in leaves
      modifies this
      ensures Valid() && cr3 == old(cr3)[pid := dir] && dirs == old(dirs) + {dir} && leaves == old(leaves) + set t | t in tables
      ensures |sp| == ENTRIES && forall i: nat :: i < ENTRIES ==> PdeAt(pid, i) == sp[i]
    {
      hide Housed;
      hide NewSpace;
      NewTables(dir, tables, sp);
      cr3 := cr3[pid := dir];
      owner := owner[dir := pid];
      home := Housed(home, tables, pid);
      dirs := dirs + {dir};
      leaves := leaves + set t | t in tables;
      forall p | p in old(cr3)
        ensures SpaceOk(p)
      {
        assert old(SpaceOk(p));
        assert cr3[p] == old(cr3[p]);
      }
      NewSpaceOk(pid, tables, sp);
      hide SpaceOk;
    }

    lemma NewSpaceOk(p: nat, tables: seq<array<Pte>>, sp: Space)
      requires p in cr3 && cr3[p] in dirs && cr3[p] in owner && owner[cr3[p]] == p && NewSpace(cr3[p], tables, sp)
      requires forall i :: 0 <= i < |tables| ==> tables[i] in leaves && tables[i] in home && home[tables[i]] == (p, i)
      ensures SpaceOk(p) && |sp| == ENTRIES && forall i :: 0 <= i < ENTRIES ==> PdeOf(cr3[p][i]) == sp[i]
    {
    }

    method AttachView(pid: nat, dir: array<Slot>, ghost tables: seq<array<Pte>>, ghost sp: Space)
      requires Valid() && pid !in cr3 && dir !in dirs && NewSpace(dir, tables, sp) && forall t :: t in tables ==> t !in leaves
      modifies this
      ensures Valid() && cr3 == old(cr3)[pid := dir] && dirs == old(dirs) + {dir} && leaves == old(leaves) + set t | t in tables
      ensures View() == old(View())[pid := sp]
    {
      hide Valid;
      hide View;
      hide PdeAt;
      hide NewSpace;
      ghost var ss := View();
      AllViews();
      Attach(pid, dir, tables, sp);
      AllViews();
      SpaceAdded(ss, View(), pid, sp);
    }

    /** init_paging for a new process. */
    method Build(pid: nat, zeroPpn: nat)
      requires Valid() && pid !in cr3 && zeroPpn < USER_PPN
      modifies this
      ensures Valid() && View() == old(View())[pid := InitSpace(zeroPpn)]
      ensures fresh(dirs - old(dirs)) && fresh(leaves - old(leaves))
      ensures cr3.Keys == old(cr3.Keys) + {pid}
    {
      hide View;
      hide Valid;
      hide NewSpace;
      hide InitSpace;
      var dir, tables := InitPaging(zeroPpn);
      AttachView(pid, dir, tables, InitSpace(zeroPpn));
    }
  }
}

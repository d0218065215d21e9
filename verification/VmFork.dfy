/** copy_paging: what one shared or copied entry does, what a whole fork does,
    and exactly when a fork keeps the counts right. */
module VmFork {
  import opened Collections
  import opened FrameAllocator
  import opened PageTables
  import opened VirtualMemory
  import opened VmInvariant
  import opened EagerMemory

  /** The page may be written, at once or after a copy-on-write fault. */
  predicate Writable(e: Pte) {
    e.rw || e.cow
  }

  /** The entry at `l` maps a frame whose count is at its maximum. */
  predicate IsSaturated(vm: Vm, l: Loc) {
    var e := Entry(vm.spaces, l);
    Owning(e) && FrameId(e.ppn) < |vm.frames.counts| && vm.frames.counts[FrameId(e.ppn)] == MAX_OWNERS
  }

  /** Memory, as far as any owner can tell, is the same. */
  ghost predicate SameMemory(vm: Vm, vm': Vm) {
    && |vm'.mem| == |vm.mem| && |vm'.frames.counts| == |vm.frames.counts|
    && vm'.zeroPage == vm.zeroPage && vm'.zeroPpn == vm.zeroPpn
    && (forall f :: 0 <= f < |vm.mem| && f < |vm.frames.counts| && vm.frames.counts[f] != 0 ==> vm'.mem[f] == vm.mem[f])
  }

  /** The effect on the page tables of copying one entry from `p` to `c`. */
  ghost predicate TablesCopied(vm: Vm, vm': Vm, p: Loc, c: Loc) {
    var e, e', ec := Entry(vm.spaces, p), Entry(vm'.spaces, p), Entry(vm'.spaces, c);
    && vm'.spaces.Keys == vm.spaces.Keys
    && (forall m :: HasTable(vm'.spaces, m) <==> HasTable(vm.spaces, m))
    && (forall m :: m != p && m != c ==> Entry(vm'.spaces, m) == Entry(vm.spaces, m))
    && (e' == e || (Owning(e) && e.rw && e' == e.(rw := false, cow := true)))
    && (!Mapped(e) ==> ec == Entry(vm.spaces, c))
    && (Mapped(e) ==> Mapped(ec) && ec.zero == e.zero && (Writable(e) ==> Writable(ec)))
  }

  ghost predicate EntryCopied(vm: Vm, vm': Vm, p: Loc, c: Loc) {
    && TablesCopied(vm, vm', p, c)
    && SameMemory(vm, vm')
    && (Mapped(Entry(vm.spaces, p)) ==> Contents(vm', Entry(vm'.spaces, c)) == Contents(vm, Entry(vm.spaces, p)))
  }

  /** Only the child's entry is written. */
  lemma ChildPut(vm: Vm, vm': Vm, p: Loc, c: Loc, ec: Pte)
    requires p.pid != c.pid && HasTable(vm.spaces, c) && vm'.spaces == SetEntry(vm.spaces, c, ec)
    requires var e := Entry(vm.spaces, p); Mapped(e) && Mapped(ec) && ec.zero == e.zero && (Writable(e) ==> Writable(ec))
    ensures TablesCopied(vm, vm', p, c) && Entry(vm'.spaces, c) == ec
  {
    SetEntryElsewhere(vm.spaces, c, ec);
  }

  /** Both entries become copy-on-write. */
  lemma BothPut(vm: Vm, vm': Vm, p: Loc, c: Loc)
    requires p.pid != c.pid && HasTable(vm.spaces, p) && HasTable(vm.spaces, c)
    requires Owning(Entry(vm.spaces, p)) && Entry(vm.spaces, p).rw
    requires var shared := Entry(vm.spaces, p).(rw := false, cow := true);
      vm'.spaces == SetEntry(SetEntry(vm.spaces, p, shared), c, shared)
    ensures TablesCopied(vm, vm', p, c)
    ensures Entry(vm'.spaces, c) == Entry(vm'.spaces, p) == Entry(vm.spaces, p).(rw := false, cow := true)
  {
    var shared := Entry(vm.spaces, p).(rw := false, cow := true);
    SetEntryElsewhere(vm.spaces, p, shared);
    SetEntryElsewhere(SetEntry(vm.spaces, p, shared), c, shared);
  }

  /** Whatever the counts, copying one entry touches only that page of the two
      processes. */
  lemma CopyEntryTables(vm: Vm, parent: nat, child: nat, i: nat, j: nat)
    requires Memory(vm) && Tables(vm)
    requires parent != child && HasTable(vm.spaces, Loc(child, i, j))
    ensures TablesCopied(vm, CopyEntry(vm, parent, child, i, j), Loc(parent, i, j), Loc(child, i, j))
  {
    var p, c := Loc(parent, i, j), Loc(child, i, j);
    var e := Entry(vm.spaces, p);
    var vm' := CopyEntry(vm, parent, child, i, j);
    if Mapped(e) {
      MappedEntry(vm, p);
      var id := FrameId(e.ppn);
      if GetFrame(vm.frames, id).1.Ok? && e.rw {
        SetEntryElsewhere(vm.spaces, p, e.(rw := false, cow := true));
        BothPut(vm, vm', p, c);
      } else if GetFrame(vm.frames, id).1.TooManyOwners? && Allocate(vm.frames).1.Some? {
        ChildPut(vm, vm', p, c, e.(rw := true, cow := false, ppn := USER_PPN + Allocate(vm.frames).1.value));
      } else {
        ChildPut(vm, vm', p, c, e);
      }
    }
  }

  /** A read-only entry joins the owners of the frame the parent maps. */
  lemma JoinInv(vm: Vm, p: Loc, c: Loc)
    requires Inv(vm) && HasTable(vm.spaces, c) && !Owning(Entry(vm.spaces, c))
    requires Owning(Entry(vm.spaces, p)) && !Entry(vm.spaces, p).rw
    requires p.pid != c.pid && p.dir == c.dir && p.idx == c.idx && !IsSaturated(vm, p)
    ensures var e := Entry(vm.spaces, p);
      Inv(Put(vm, c, e).(frames := GetFrame(vm.frames, FrameId(e.ppn)).0))
  {
    MappedEntry(vm, p);
    var e := Entry(vm.spaces, p);
    GetFrameValid(vm.frames, FrameId(e.ppn));
    PutTables(vm, c, e);
    PutDiffers(vm, c, e);
    forall m | m != c && Owning(Entry(vm.spaces, m)) && Entry(vm.spaces, m).ppn == e.ppn
      ensures !Entry(vm.spaces, m).rw && !e.rw && m.dir == c.dir && m.idx == c.idx
    {
      if m != p {
        TwoOwnersCounted(vm, m, p);
      }
    }
    InvUpdate(vm, Put(vm, c, e).(frames := GetFrame(vm.frames, FrameId(e.ppn)).0), c);
  }

  /** Sharing changes no memory: both entries map the parent's frame. */
  lemma ShareMemory(vm: Vm, parent: nat, child: nat, i: nat, j: nat)
    requires Memory(vm) && Tables(vm) && parent != child && HasTable(vm.spaces, Loc(child, i, j))
    requires Owning(Entry(vm.spaces, Loc(parent, i, j))) && !IsSaturated(vm, Loc(parent, i, j))
    ensures EntryCopied(vm, CopyEntry(vm, parent, child, i, j), Loc(parent, i, j), Loc(child, i, j))
  {
    var p, c := Loc(parent, i, j), Loc(child, i, j);
    var e := Entry(vm.spaces, p);
    MappedEntry(vm, p);
    CopyEntryTables(vm, parent, child, i, j);
    var shared := if e.rw then e.(rw := false, cow := true) else e;
    PutDiffers(vm, p, shared);
    PutDiffers(if e.rw then Put(vm, p, shared) else vm, c, shared);
  }

  lemma ShareInv(vm: Vm, parent: nat, child: nat, i: nat, j: nat)
    requires Inv(vm) && parent != child && HasTable(vm.spaces, Loc(child, i, j))
    requires Entry(vm.spaces, Loc(child, i, j)) == NO_PTE
    requires Owning(Entry(vm.spaces, Loc(parent, i, j))) && !IsSaturated(vm, Loc(parent, i, j))
    ensures Inv(CopyEntry(vm, parent, child, i, j))
  {
    hide Conserved;
    hide Exclusive;
    hide SetEntry;
    var p, c := Loc(parent, i, j), Loc(child, i, j);
    var e := Entry(vm.spaces, p);
    MappedEntry(vm, p);
    if e.rw {
      var shared := e.(rw := false, cow := true);
      ReplaceInv(vm, p, shared);
      PutDiffers(vm, p, shared);
      JoinInv(Put(vm, p, shared), p, c);
    } else {
      JoinInv(vm, p, c);
    }
  }

  /** The child's own frame for a page whose frame is saturated. */
  function PrivateCopy(vm: Vm, p: Loc, c: Loc, f: nat): Vm {
    var e := Entry(vm.spaces, p);
    SetFrame(Put(vm, c, e.(rw := true, cow := false, ppn := USER_PPN + f)).(frames := Allocate(vm.frames).0),
             f, Contents(vm, e))
  }

  lemma CopySaturatedResult(vm: Vm, parent: nat, child: nat, i: nat, j: nat)
    requires Inv(vm) && IsSaturated(vm, Loc(parent, i, j)) && vm.frames.next != -1
    ensures CopyEntry(vm, parent, child, i, j) == PrivateCopy(vm, Loc(parent, i, j), Loc(child, i, j), vm.frames.next)
  {
    MappedEntry(vm, Loc(parent, i, j));
  }

  lemma CopySaturatedInv(vm: Vm, p: Loc, c: Loc)
    requires Inv(vm) && p.pid != c.pid && HasTable(vm.spaces, c) && c.dir == p.dir
    requires Entry(vm.spaces, c) == NO_PTE
    requires IsSaturated(vm, p) && vm.frames.next != -1
    ensures Inv(PrivateCopy(vm, p, c, vm.frames.next))
  {
    hide Conserved;
    hide SamePage;
    hide Exclusive;
    hide SetEntry;
    hide NextFree;
    var e := Entry(vm.spaces, p);
    MappedEntry(vm, p);
    var f := vm.frames.next;
    var ec := e.(rw := true, cow := false, ppn := USER_PPN + f);
    MapFreshInv(vm, c, ec);
    SetFrameInv(Put(vm, c, ec).(frames := Allocate(vm.frames).0), f, Contents(vm, e));
  }

  lemma CopySaturatedMemory(vm: Vm, p: Loc, c: Loc)
    requires Inv(vm) && HasTable(vm.spaces, c)
    requires IsSaturated(vm, p) && vm.frames.next != -1
    ensures var vm' := PrivateCopy(vm, p, c, vm.frames.next);
      SameMemory(vm, vm') && Contents(vm', Entry(vm'.spaces, c)) == Contents(vm, Entry(vm.spaces, p))
  {
    MappedEntry(vm, p);
    var f := vm.frames.next;
    PutDiffers(vm, c, Entry(vm.spaces, p).(rw := true, cow := false, ppn := USER_PPN + f));
    AllocateExact(vm.frames);
  }

  /** Copying one entry keeps the invariant exactly when the frame is not
      saturated or another frame is free. */
  lemma CopyEntryExact(vm: Vm, parent: nat, child: nat, i: nat, j: nat)
    requires Inv(vm) && parent != child && HasTable(vm.spaces, Loc(child, i, j)) && KERNEL_DIRS <= i
    requires Entry(vm.spaces, Loc(child, i, j)) == NO_PTE
    ensures var vm' := CopyEntry(vm, parent, child, i, j);
      if IsSaturated(vm, Loc(parent, i, j)) && vm.frames.next == -1
      then |Owners(vm'.spaces, FrameId(Entry(vm.spaces, Loc(parent, i, j)).ppn))| == MAX_OWNERS + 1
      else Inv(vm') && EntryCopied(vm, vm', Loc(parent, i, j), Loc(child, i, j))
  {
    var p, c := Loc(parent, i, j), Loc(child, i, j);
    var e := Entry(vm.spaces, p);
    if Mapped(e) {
      MappedEntry(vm, p);
      if !Owning(e) {
        ReplaceInv(vm, c, e);
        PutDiffers(vm, c, e);
        CopyEntryTables(vm, parent, child, i, j);
      } else if !IsSaturated(vm, p) {
        ShareInv(vm, parent, child, i, j);
        ShareMemory(vm, parent, child, i, j);
      } else if vm.frames.next != -1 {
        CopySaturatedResult(vm, parent, child, i, j);
        CopySaturatedInv(vm, p, c);
        CopySaturatedMemory(vm, p, c);
        CopyEntryTables(vm, parent, child, i, j);
      } else {
        PutDiffers(vm, c, e);
        OwnersAfterUpdate(vm.spaces, Put(vm, c, e).spaces, c, FrameId(e.ppn));
      }
    }
  }

  // ----- the pages as processes see them -----

  function ShadowOf(vm: Vm, l: Loc): Option<Shadow> {
    var e := Entry(vm.spaces, l);
    if !Mapped(e) then None
    else if e.zero then Some(OnDemand)
    else Some(Private(Contents(vm, e), Writable(e)))
  }

  predicate SameOrCopy(a: Option<Shadow>, b: Option<Shadow>) {
    (a.None? && b.None?) || (a.Some? && b.Some? && CopyOf(a.value, b.value))
  }

  /** Copying one entry gives the child a copy of the page and changes nothing
      any process can see otherwise. */
  lemma EntryCopiedShadows(vm: Vm, vm': Vm, p: Loc, c: Loc)
    requires Inv(vm) && EntryCopied(vm, vm', p, c) && Entry(vm.spaces, c) == NO_PTE && p != c
    ensures forall m :: m != c ==> ShadowOf(vm', m) == ShadowOf(vm, m)
    ensures SameOrCopy(ShadowOf(vm, p), ShadowOf(vm', c))
  {
    forall m | m != c ensures ShadowOf(vm', m) == ShadowOf(vm, m) {
      var e := Entry(vm.spaces, m);
      if Mapped(e) && !e.zero {
        MappedEntry(vm, m);
        OwnerCounted(vm, m);
      }
    }
    if Mapped(Entry(vm.spaces, p)) {
      MappedEntry(vm, p);
    }
  }

  // ----- states in which the counts may be wrong -----

  /** Everything but the counts is in order. */
  ghost predicate Sound(vm: Vm) {
    Valid(vm.frames) && Memory(vm) && Tables(vm)
  }

  /** Some frame has more owners than a count can say. */
  ghost predicate Overcommitted(vm: Vm) {
    exists f: nat :: f < |vm.frames.counts| && |Owners(vm.spaces, f)| > MAX_OWNERS
  }

  lemma OvercommittedBreaksInv(vm: Vm)
    requires Overcommitted(vm)
    ensures !Inv(vm)
  {
  }

  lemma CopyEntrySound(vm: Vm, parent: nat, child: nat, i: nat, j: nat)
    requires Sound(vm) && parent != child && HasTable(vm.spaces, Loc(child, i, j)) && KERNEL_DIRS <= i
    ensures Sound(CopyEntry(vm, parent, child, i, j))
    ensures |CopyEntry(vm, parent, child, i, j).frames.counts| == |vm.frames.counts|
  {
    hide SetEntry;
    hide Shaped;
    hide EntriesOk;
    hide NextFree;
    var p, c := Loc(parent, i, j), Loc(child, i, j);
    var e := Entry(vm.spaces, p);
    if Mapped(e) {
      MappedEntry(vm, p);
      GetFrameValid(vm.frames, FrameId(e.ppn));
      AllocateExact(vm.frames);
      PutTables(vm, c, e);
      if GetFrame(vm.frames, FrameId(e.ppn)).1.Ok? && e.rw {
        var shared := e.(rw := false, cow := true);
        PutTables(vm, p, shared);
        PutDiffers(vm, p, shared);
        PutTables(Put(vm, p, shared), c, shared);
      } else if GetFrame(vm.frames, FrameId(e.ppn)).1.TooManyOwners? && Allocate(vm.frames).1.Some? {
        PutTables(vm, c, e.(rw := true, cow := false, ppn := USER_PPN + Allocate(vm.frames).1.value));
      }
    }
  }

  /** Copying entries never takes an owner away. */
  lemma CopyEntryKeepsOvercommitted(vm: Vm, parent: nat, child: nat, i: nat, j: nat)
    requires Sound(vm) && parent != child && HasTable(vm.spaces, Loc(child, i, j)) && KERNEL_DIRS <= i
    requires Entry(vm.spaces, Loc(child, i, j)) == NO_PTE && Overcommitted(vm)
    ensures Overcommitted(CopyEntry(vm, parent, child, i, j))
  {
    hide CopyEntry;
    hide Shaped;
    hide EntriesOk;
    CopyEntrySound(vm, parent, child, i, j);
    CopyEntryTables(vm, parent, child, i, j);
    var vm' := CopyEntry(vm, parent, child, i, j);
    var f: nat :| f < |vm.frames.counts| && |Owners(vm.spaces, f)| > MAX_OWNERS;
    forall m | m in Owners(vm.spaces, f) ensures m in Owners(vm'.spaces, f) {
      OwnersMember(vm.spaces, f, m);
      OwnersMember(vm'.spaces, f, m);
    }
    SubsetSize(Owners(vm.spaces, f), Owners(vm'.spaces, f));
  }

  lemma SubsetSize<T>(a: set<T>, b: set<T>)
    requires a <= b
    ensures |a| <= |b|
  {
    assert b == a + (b - a);
    assert |b| == |a| + |b - a|;
  }

  // ----- room for the copies of saturated frames -----

  function Pos(i: nat, j: nat): nat {
    i * ENTRIES + j
  }

  /** The pages of `p` between two positions whose frames are saturated. */
  ghost function Saturated(vm: Vm, p: nat, lo: nat, hi: nat): set<Loc> {
    set i, j | 0 <= i < ENTRIES && 0 <= j < ENTRIES && lo <= Pos(i, j) < hi && IsSaturated(vm, Loc(p, i, j)) :: Loc(p, i, j)
  }

  ghost function FreeFrames(vm: Vm): set<nat> {
    set f | 0 <= f < |vm.frames.counts| && vm.frames.counts[f] == 0
  }

  /** There is a free frame for each saturated one. */
  ghost predicate Room(vm: Vm, p: nat, lo: nat, hi: nat) {
    |Saturated(vm, p, lo, hi)| <= |FreeFrames(vm)|
  }

  lemma SaturatedMember(vm: Vm, p: nat, lo: nat, hi: nat, l: Loc)
    ensures l in Saturated(vm, p, lo, hi) <==> l.pid == p && lo <= Pos(l.dir, l.idx) < hi && IsSaturated(vm, l)
  {
    assert l == Loc(l.pid, l.dir, l.idx);
  }

  /** Which counts one copied entry changes: the frame it shares, or the frame it
      takes. */
  lemma CopyEntryCounts(vm: Vm, parent: nat, child: nat, i: nat, j: nat)
    requires Inv(vm)
    ensures var vm', e := CopyEntry(vm, parent, child, i, j), Entry(vm.spaces, Loc(parent, i, j));
      |vm'.frames.counts| == |vm.frames.counts| &&
      forall f :: 0 <= f < |vm.frames.counts| ==>
        vm'.frames.counts[f] ==
          if IsSaturated(vm, Loc(parent, i, j)) then (if f == vm.frames.next then 1 else vm.frames.counts[f])
          else if Owns(e, f) then vm.frames.counts[f] + 1
          else vm.frames.counts[f]
  {
    var p := Loc(parent, i, j);
    var e := Entry(vm.spaces, p);
    AllocateExact(vm.frames);
    if Mapped(e) {
      MappedEntry(vm, p);
    }
  }

  /** Copying one page leaves the saturation of the others alone. */
  lemma SaturationElsewhere(vm: Vm, parent: nat, child: nat, i: nat, j: nat, m: Loc)
    requires Inv(vm) && parent != child && HasTable(vm.spaces, Loc(child, i, j))
    requires m.pid == parent && m != Loc(parent, i, j)
    ensures IsSaturated(CopyEntry(vm, parent, child, i, j), m) <==> IsSaturated(vm, m)
  {
    hide CopyEntry;
    hide Conserved;
    hide Exclusive;
    hide Shaped;
    hide EntriesOk;
    CopyEntryCounts(vm, parent, child, i, j);
    CopyEntryTables(vm, parent, child, i, j);
    if Owning(Entry(vm.spaces, m)) {
      OwnerCounted(vm, m);
      var l := Loc(parent, i, j);
      assert Owning(Entry(vm.spaces, l)) ==> Entry(vm.spaces, l).ppn != Entry(vm.spaces, m).ppn;
    }
  }

  /** Of the pages still to be copied, exactly this one is off the list. */
  lemma SaturatedAfter(vm: Vm, parent: nat, child: nat, i: nat, j: nat, hi: nat)
    requires Inv(vm) && parent != child && HasTable(vm.spaces, Loc(child, i, j)) && i < ENTRIES && j < ENTRIES
    ensures Saturated(CopyEntry(vm, parent, child, i, j), parent, Pos(i, j) + 1, hi)
         == Saturated(vm, parent, Pos(i, j), hi) - {Loc(parent, i, j)}
  {
    hide Inv;
    hide CopyEntry;
    hide Saturated;
    var l, k := Loc(parent, i, j), Pos(i, j);
    var vm' := CopyEntry(vm, parent, child, i, j);
    var before, after := Saturated(vm, parent, k, hi), Saturated(vm', parent, k + 1, hi);
    forall m
      ensures m in after <==> m in before - {l}
    {
      SaturatedMember(vm, parent, k, hi, m);
      SaturatedMember(vm', parent, k + 1, hi, m);
      if m.pid == parent && m != l {
        SaturationElsewhere(vm, parent, child, i, j, m);
        assert HasTable(vm.spaces, m) ==> Pos(m.dir, m.idx) != k;
      }
    }
    assert after == before - {l};
  }

  lemma FreeFramesAfter(vm: Vm, parent: nat, child: nat, i: nat, j: nat)
    requires Inv(vm)
    ensures FreeFrames(CopyEntry(vm, parent, child, i, j))
         == FreeFrames(vm) - if IsSaturated(vm, Loc(parent, i, j)) && vm.frames.next >= 0 then {vm.frames.next} else {}
  {
    hide CopyEntry;
    hide Shaped;
    hide EntriesOk;
    CopyEntryCounts(vm, parent, child, i, j);
    if Owning(Entry(vm.spaces, Loc(parent, i, j))) {
      OwnerCounted(vm, Loc(parent, i, j));
    }
  }

  /** One entry on, the remaining room is as good as it was. */
  lemma CopyEntryRoom(vm: Vm, parent: nat, child: nat, i: nat, j: nat, hi: nat)
    requires Inv(vm) && parent != child && HasTable(vm.spaces, Loc(child, i, j)) && i < ENTRIES && j < ENTRIES
    requires Pos(i, j) < hi && (IsSaturated(vm, Loc(parent, i, j)) ==> vm.frames.next != -1)
    ensures Room(CopyEntry(vm, parent, child, i, j), parent, Pos(i, j) + 1, hi) <==> Room(vm, parent, Pos(i, j), hi)
  {
    hide CopyEntry;
    hide Saturated;
    hide FreeFrames;
    hide IsSaturated;
    var l := Loc(parent, i, j);
    SaturatedAfter(vm, parent, child, i, j, hi);
    FreeFramesAfter(vm, parent, child, i, j);
    SaturatedMember(vm, parent, Pos(i, j), hi, l);
    if IsSaturated(vm, l) {
      NextIsFree(vm);
    }
  }

  lemma NextIsFree(vm: Vm)
    requires Inv(vm) && vm.frames.next != -1
    ensures vm.frames.next >= 0 && vm.frames.next in FreeFrames(vm)
  {
    hide Conserved;
    hide Exclusive;
    hide Shaped;
    hide EntriesOk;
  }

  /** A saturated frame and none free: no room. */
  lemma NoRoom(vm: Vm, p: nat, l: Loc, lo: nat, hi: nat)
    requires Inv(vm) && l.pid == p && lo <= Pos(l.dir, l.idx) < hi && IsSaturated(vm, l) && vm.frames.next == -1
    ensures !Room(vm, p, lo, hi)
  {
    SaturatedMember(vm, p, lo, hi, l);
    assert FreeFrames(vm) == {};
    assert Saturated(vm, p, lo, hi) != {};
  }

  // ----- a directory -----

  /** The child's page table for directory `i` is there and still empty. */
  ghost predicate EmptyDir(vm: Vm, c: nat, i: nat) {
    forall j: nat :: j < ENTRIES ==> HasTable(vm.spaces, Loc(c, i, j)) && Entry(vm.spaces, Loc(c, i, j)) == NO_PTE
  }

  /** `l` is one of the first `j` pages of directory `i`. */
  predicate Before(l: Loc, i: nat, j: nat) {
    l.dir == i && l.idx < j
  }

  /** Copying entries touches those entries of the two processes only, in every
      state whose tables are in order. */
  lemma {:induction false} CopyEntriesTables(vm: Vm, p: nat, c: nat, i: nat, j: nat)
    requires Sound(vm) && p != c && KERNEL_DIRS <= i < ENTRIES && j <= ENTRIES && EmptyDir(vm, c, i)
    ensures var vm' := CopyEntries(vm, p, c, i, j);
      && Sound(vm') && vm'.spaces.Keys == vm.spaces.Keys
      && |vm'.frames.counts| == |vm.frames.counts| && vm'.zeroPpn == vm.zeroPpn
      && (forall m :: HasTable(vm'.spaces, m) <==> HasTable(vm.spaces, m))
      && (forall m: Loc :: !((m.pid == p || m.pid == c) && Before(m, i, j)) ==> Entry(vm'.spaces, m) == Entry(vm.spaces, m))
  {
    hide CopyEntry;
    hide Sound;
    if j != 0 {
      CopyEntriesTables(vm, p, c, i, j - 1);
      var vm1 := CopyEntries(vm, p, c, i, j - 1);
      CopyEntryStep(vm1, p, c, i, j - 1);
    }
  }

  lemma CopyEntryStep(vm: Vm, p: nat, c: nat, i: nat, j: nat)
    requires Sound(vm) && p != c && HasTable(vm.spaces, Loc(c, i, j)) && KERNEL_DIRS <= i
    ensures var vm' := CopyEntry(vm, p, c, i, j);
      && Sound(vm') && vm'.spaces.Keys == vm.spaces.Keys
      && |vm'.frames.counts| == |vm.frames.counts| && vm'.zeroPpn == vm.zeroPpn
      && TablesCopied(vm, vm', Loc(p, i, j), Loc(c, i, j))
  {
    CopyEntrySound(vm, p, c, i, j);
    CopyEntryTables(vm, p, c, i, j);
  }

  /** The child sees copies of the parent's first `j` pages of directory `i`;
      everything else looks as before. */
  ghost predicate DirCopied(vm: Vm, vm': Vm, p: nat, c: nat, i: nat, j: nat) {
    && (forall m: Loc :: !(m.pid == c && Before(m, i, j)) ==> ShadowOf(vm', m) == ShadowOf(vm, m))
    && (forall j': nat :: j' < j ==> SameOrCopy(ShadowOf(vm, Loc(p, i, j')), ShadowOf(vm', Loc(c, i, j'))))
  }

  /** Either all went well, and the room left is as good as before, or the
      counts are overcommitted, and there was not enough room. */
  ghost predicate CopyVerdict(vm: Vm, vm': Vm, p: nat, lo: nat, lo': nat, hi: nat) {
    if Inv(vm') then Room(vm', p, lo', hi) <==> Room(vm, p, lo, hi)
    else Overcommitted(vm') && !Room(vm, p, lo, hi)
  }

  /** One more entry, after a good start. */
  lemma CopyEntryVerdict(vm: Vm, vm1: Vm, p: nat, c: nat, i: nat, j: nat, lo: nat, hi: nat)
    requires Inv(vm1) && p != c && HasTable(vm1.spaces, Loc(c, i, j)) && KERNEL_DIRS <= i < ENTRIES && j < ENTRIES
    requires Entry(vm1.spaces, Loc(c, i, j)) == NO_PTE && Pos(i, j) < hi
    requires CopyVerdict(vm, vm1, p, lo, Pos(i, j), hi)
    ensures var vm' := CopyEntry(vm1, p, c, i, j);
      && CopyVerdict(vm, vm', p, lo, Pos(i, j) + 1, hi)
      && (Inv(vm') ==> EntryCopied(vm1, vm', Loc(p, i, j), Loc(c, i, j)))
  {
    hide CopyEntry;
    hide Inv;
    CopyEntryExact(vm1, p, c, i, j);
    var vm' := CopyEntry(vm1, p, c, i, j);
    if IsSaturated(vm1, Loc(p, i, j)) && vm1.frames.next == -1 {
      CopyEntryStuck(vm1, p, c, i, j);
      OvercommittedBreaksInv(vm');
      NoRoom(vm1, p, Loc(p, i, j), Pos(i, j), hi);
    } else {
      CopyEntryRoom(vm1, p, c, i, j, hi);
    }
  }

  lemma CopyEntryStuck(vm: Vm, p: nat, c: nat, i: nat, j: nat)
    requires Inv(vm) && p != c && HasTable(vm.spaces, Loc(c, i, j)) && KERNEL_DIRS <= i
    requires Entry(vm.spaces, Loc(c, i, j)) == NO_PTE
    requires IsSaturated(vm, Loc(p, i, j)) && vm.frames.next == -1
    ensures Overcommitted(CopyEntry(vm, p, c, i, j))
  {
    hide CopyEntry;
    CopyEntryExact(vm, p, c, i, j);
    CopyEntrySound(vm, p, c, i, j);
  }

  lemma DirCopiedStep(vm: Vm, vm1: Vm, vm': Vm, p: nat, c: nat, i: nat, j: nat)
    requires p != c && DirCopied(vm, vm1, p, c, i, j) && Inv(vm1) && Entry(vm1.spaces, Loc(c, i, j)) == NO_PTE
    requires EntryCopied(vm1, vm', Loc(p, i, j), Loc(c, i, j))
    ensures DirCopied(vm, vm', p, c, i, j + 1)
  {
    hide Inv;
    hide EntryCopied;
    EntryCopiedShadows(vm1, vm', Loc(p, i, j), Loc(c, i, j));
    hide ShadowOf;
    hide SameOrCopy;
  }

  lemma {:induction false} CopyEntriesExact(vm: Vm, p: nat, c: nat, i: nat, j: nat, hi: nat)
    requires Inv(vm) && p != c && KERNEL_DIRS <= i < ENTRIES && j <= ENTRIES && EmptyDir(vm, c, i)
    requires Pos(i, j) <= hi
    ensures var vm' := CopyEntries(vm, p, c, i, j);
      && CopyVerdict(vm, vm', p, Pos(i, 0), Pos(i, j), hi)
      && (Inv(vm') ==> DirCopied(vm, vm', p, c, i, j))
  {
    hide CopyEntry;
    hide Inv;
    hide Sound;
    hide Room;
    hide Overcommitted;
    hide EntryCopied;
    hide ShadowOf;
    hide SameOrCopy;
    InvSound(vm);
    if j != 0 {
      CopyEntriesExact(vm, p, c, i, j - 1, hi);
      CopyEntriesTables(vm, p, c, i, j - 1);
      var vm1 := CopyEntries(vm, p, c, i, j - 1);
      var vm' := CopyEntry(vm1, p, c, i, j - 1);
      if Inv(vm1) {
        CopyEntryVerdict(vm, vm1, p, c, i, j - 1, Pos(i, 0), hi);
        if Inv(vm') {
          DirCopiedStep(vm, vm1, vm', p, c, i, j - 1);
        }
      } else {
        CopyEntryKeepsOvercommitted(vm1, p, c, i, j - 1);
        OvercommittedBreaksInv(vm');
      }
    }
  }

  lemma InvSound(vm: Vm)
    ensures Inv(vm) ==> Sound(vm)
  {
  }

  lemma {:induction false} CopyEntriesKeepOvercommitted(vm: Vm, p: nat, c: nat, i: nat, j: nat)
    requires Sound(vm) && p != c && KERNEL_DIRS <= i < ENTRIES && j <= ENTRIES && EmptyDir(vm, c, i)
    requires Overcommitted(vm)
    ensures Overcommitted(CopyEntries(vm, p, c, i, j))
  {
    hide CopyEntry;
    hide Sound;
    hide Overcommitted;
    if j != 0 {
      CopyEntriesKeepOvercommitted(vm, p, c, i, j - 1);
      CopyEntriesTables(vm, p, c, i, j - 1);
      CopyEntryKeepsOvercommitted(CopyEntries(vm, p, c, i, j - 1), p, c, i, j - 1);
    }
  }

  // ----- the whole directory -----

  /** Process `c` has no page table from directory `n` on, but for the kernel's. */
  ghost predicate NoTablesFrom(vm: Vm, c: nat, n: nat) {
    forall m: Loc :: m.pid == c && m.dir >= n && m.dir >= KERNEL_DIRS ==> !HasTable(vm.spaces, m)
  }

  /** The child's page table is linked in: an empty directory, all else alike. */
  lemma ChildTable(vm: Vm, c: nat, i: nat)
    requires Sound(vm) && c in vm.spaces && KERNEL_DIRS <= i < ENTRIES && NoTablesFrom(vm, c, i)
    ensures var vm' := vm.(spaces := InstallTable(vm.spaces, c, i));
      && Sound(vm') && EmptyDir(vm', c, i)
      && (forall m :: Entry(vm'.spaces, m) == Entry(vm.spaces, m))
      && (forall m: Loc :: !(m.pid == c && m.dir == i) ==> (HasTable(vm'.spaces, m) <==> HasTable(vm.spaces, m)))
      && (Inv(vm) ==> Inv(vm'))
  {
    assert SpaceShape(vm.spaces[c], vm.zeroPpn);
    assert !HasTable(vm.spaces, Loc(c, i, 0));
    InstallTableEntries(vm.spaces, c, i);
    InstallTableShape(vm.spaces, c, i, vm.zeroPpn);
    var vm' := vm.(spaces := InstallTable(vm.spaces, c, i));
    forall m: Loc | m.dir >= KERNEL_DIRS ensures EntryOk(Entry(vm'.spaces, m), |vm.frames.counts|, vm.zeroPpn) {
      assert Entry(vm'.spaces, m) == Entry(vm.spaces, m);
    }
    if Inv(vm) {
      InstallTableInv(vm, c, i);
    }
  }

  lemma UserDirs(vm: Vm, p: nat, i: nat)
    requires Sound(vm) && p in vm.spaces && i < ENTRIES
    ensures UserDir(vm, p, i) <==> KERNEL_DIRS <= i && HasTable(vm.spaces, Loc(p, i, 0))
    ensures !UserDir(vm, p, i) ==> forall j: nat :: !Mapped(Entry(vm.spaces, Loc(p, i, j)))
    ensures |vm.spaces[p]| == ENTRIES
  {
    assert SpaceShape(vm.spaces[p], vm.zeroPpn);
    if i < KERNEL_DIRS {
      forall j: nat ensures !Mapped(Entry(vm.spaces, Loc(p, i, j))) {
        KernelEntry(vm, Loc(p, i, j));
      }
    }
  }

  lemma CopyDirTables(vm: Vm, p: nat, c: nat, i: nat)
    requires Sound(vm) && p in vm.spaces && c in vm.spaces && p != c && i < ENTRIES && NoTablesFrom(vm, c, i)
    ensures var vm' := CopyDir(vm, p, c, i);
      && Sound(vm') && vm'.spaces.Keys == vm.spaces.Keys && vm'.zeroPpn == vm.zeroPpn
      && NoTablesFrom(vm', c, i + 1)
      && (Overcommitted(vm) ==> Overcommitted(vm'))
  {
    hide Sound;
    hide CopyEntries;
    UserDirs(vm, p, i);
    UserDirs(vm, c, i);
    if UserDir(vm, p, i) {
      ChildTable(vm, c, i);
      var vm1 := vm.(spaces := InstallTable(vm.spaces, c, i));
      CopyEntriesTables(vm1, p, c, i, ENTRIES);
      if Overcommitted(vm) {
        SameOwners(vm, vm1);
        CopyEntriesKeepOvercommitted(vm1, p, c, i, ENTRIES);
      }
    }
  }

  lemma SameOwners(vm: Vm, vm': Vm)
    requires forall m :: Entry(vm'.spaces, m) == Entry(vm.spaces, m)
    ensures forall f: nat :: Owners(vm'.spaces, f) == Owners(vm.spaces, f)
  {
    forall f: nat ensures Owners(vm'.spaces, f) == Owners(vm.spaces, f) {
      OwnersUnchanged(vm.spaces, vm'.spaces, f);
    }
  }

  /** The same counts and entries of the parent: the same room. */
  lemma SameRoom(vm: Vm, vm': Vm, p: nat, lo: nat, hi: nat)
    requires vm'.frames == vm.frames
    requires forall m: Loc :: m.pid == p ==> Entry(vm'.spaces, m) == Entry(vm.spaces, m)
    ensures Room(vm', p, lo, hi) <==> Room(vm, p, lo, hi)
  {
    forall l ensures l in Saturated(vm', p, lo, hi) <==> l in Saturated(vm, p, lo, hi) {
      SaturatedMember(vm, p, lo, hi, l);
      SaturatedMember(vm', p, lo, hi, l);
    }
    assert Saturated(vm', p, lo, hi) == Saturated(vm, p, lo, hi);
  }

  /** A directory without user pages needs no room. */
  lemma SkippedDirRoom(vm: Vm, p: nat, i: nat, hi: nat)
    requires forall j: nat :: !Mapped(Entry(vm.spaces, Loc(p, i, j)))
    ensures Room(vm, p, Pos(i, 0), hi) <==> Room(vm, p, Pos(i + 1, 0), hi)
  {
    forall l ensures l in Saturated(vm, p, Pos(i, 0), hi) <==> l in Saturated(vm, p, Pos(i + 1, 0), hi) {
      SaturatedMember(vm, p, Pos(i, 0), hi, l);
      SaturatedMember(vm, p, Pos(i + 1, 0), hi, l);
      if l.pid == p && IsSaturated(vm, l) {
        assert l == Loc(p, l.dir, l.idx);
        assert l.dir != i && l.idx < ENTRIES;
      }
    }
    assert Saturated(vm, p, Pos(i, 0), hi) == Saturated(vm, p, Pos(i + 1, 0), hi);
  }

  lemma CopyDirExact(vm: Vm, p: nat, c: nat, i: nat, hi: nat)
    requires Inv(vm) && p in vm.spaces && c in vm.spaces && p != c && i < ENTRIES && NoTablesFrom(vm, c, i)
    requires Pos(i + 1, 0) <= hi
    ensures var vm' := CopyDir(vm, p, c, i);
      && CopyVerdict(vm, vm', p, Pos(i, 0), Pos(i + 1, 0), hi)
      && (Inv(vm') ==> DirCopied(vm, vm', p, c, i, ENTRIES))
  {
    hide Inv;
    hide Sound;
    hide Room;
    hide CopyEntries;
    InvSound(vm);
    UserDirs(vm, p, i);
    UserDirs(vm, c, i);
    if UserDir(vm, p, i) {
      ChildTable(vm, c, i);
      var vm1 := vm.(spaces := InstallTable(vm.spaces, c, i));
      SameRoom(vm, vm1, p, Pos(i, 0), hi);
      CopyEntriesExact(vm1, p, c, i, ENTRIES, hi);
    } else {
      SkippedDirRoom(vm, p, i, hi);
      ChildDirUnmapped(vm, c, i);
    }
  }

  lemma ChildDirUnmapped(vm: Vm, c: nat, i: nat)
    requires Sound(vm) && NoTablesFrom(vm, c, i)
    ensures forall j: nat :: !Mapped(Entry(vm.spaces, Loc(c, i, j)))
  {
    forall j: nat ensures !Mapped(Entry(vm.spaces, Loc(c, i, j))) {
      if i < KERNEL_DIRS {
        KernelEntry(vm, Loc(c, i, j));
      }
    }
  }

  /** Process `c` sees copies of `p`'s pages in the directories below `n`, and
      nothing above; no other process sees a difference. */
  ghost predicate SpaceCopied(vm: Vm, vm': Vm, p: nat, c: nat, n: nat) {
    && (forall m: Loc :: m.pid != c ==> ShadowOf(vm', m) == ShadowOf(vm, m))
    && (forall i: nat, j: nat :: i < n ==> SameOrCopy(ShadowOf(vm, Loc(p, i, j)), ShadowOf(vm', Loc(c, i, j))))
    && (forall i: nat, j: nat :: i >= n ==> ShadowOf(vm', Loc(c, i, j)).None?)
  }

  lemma SpaceCopiedStep(vm: Vm, vm1: Vm, vm': Vm, p: nat, c: nat, n: nat)
    requires p != c && SpaceCopied(vm, vm1, p, c, n) && DirCopied(vm1, vm', p, c, n, ENTRIES)
    ensures SpaceCopied(vm, vm', p, c, n + 1)
  {
    forall i: nat, j: nat | i < n + 1 ensures SameOrCopy(ShadowOf(vm, Loc(p, i, j)), ShadowOf(vm', Loc(c, i, j))) {
      if i == n && j >= ENTRIES {
        assert ShadowOf(vm', Loc(c, i, j)).None?;
      }
    }
  }

  lemma {:induction false} CopyDirsExact(vm: Vm, p: nat, c: nat, n: nat, hi: nat)
    requires Inv(vm) && p in vm.spaces && c in vm.spaces && p != c && n <= ENTRIES && NoTablesFrom(vm, c, 0)
    requires Pos(n, 0) <= hi
    ensures var vm' := CopyDirs(vm, p, c, n);
      && Sound(vm') && vm'.spaces.Keys == vm.spaces.Keys && vm'.zeroPpn == vm.zeroPpn
      && NoTablesFrom(vm', c, n)
      && CopyVerdict(vm, vm', p, 0, Pos(n, 0), hi)
      && (Inv(vm') ==> SpaceCopied(vm, vm', p, c, n))
  {
    hide Inv;
    hide Sound;
    hide Room;
    hide Overcommitted;
    hide CopyDir;
    hide NoTablesFrom;
    hide DirCopied;
    InvSound(vm);
    if n == 0 {
      FreshChildUnmapped(vm, c);
    } else {
      CopyDirsExact(vm, p, c, n - 1, hi);
      var vm1 := CopyDirs(vm, p, c, n - 1);
      var vm' := CopyDir(vm1, p, c, n - 1);
      CopyDirTables(vm1, p, c, n - 1);
      if Inv(vm1) {
        CopyDirExact(vm1, p, c, n - 1, hi);
        if Inv(vm') {
          SpaceCopiedStep(vm, vm1, vm', p, c, n - 1);
        }
      } else {
        OvercommittedBreaksInv(vm');
      }
    }
  }

  lemma FreshChildUnmapped(vm: Vm, c: nat)
    requires Sound(vm) && NoTablesFrom(vm, c, 0)
    ensures forall i: nat, j: nat :: ShadowOf(vm, Loc(c, i, j)).None?
  {
    forall i: nat, j: nat ensures ShadowOf(vm, Loc(c, i, j)).None? {
      if i < KERNEL_DIRS {
        KernelEntry(vm, Loc(c, i, j));
      }
    }
  }

  // ----- fork -----

  /** The empty address space of a new process. */
  lemma SpawnInv(vm: Vm, c: nat)
    requires Inv(vm) && c !in vm.spaces
    ensures var vm' := vm.(spaces := vm.spaces[c := InitSpace(vm.zeroPpn)]);
      && Inv(vm') && NoTablesFrom(vm', c, 0)
      && (forall m: Loc :: m.pid != c ==> Entry(vm'.spaces, m) == Entry(vm.spaces, m))
      && (forall m: Loc :: m.pid == c ==> !Mapped(Entry(vm'.spaces, m)))
  {
    var vm' := vm.(spaces := vm.spaces[c := InitSpace(vm.zeroPpn)]);
    InitSpaceShape(vm.zeroPpn);
    assert Shaped(vm'.spaces, vm.zeroPpn);
    forall m: Loc ensures m.pid != c ==> Entry(vm'.spaces, m) == Entry(vm.spaces, m)
                  ensures m.pid == c && m.dir >= KERNEL_DIRS ==> !HasTable(vm'.spaces, m)
    {
    }
    forall m: Loc | m.dir >= KERNEL_DIRS ensures EntryOk(Entry(vm'.spaces, m), |vm.frames.counts|, vm.zeroPpn) {
      assert m.pid != c ==> Entry(vm'.spaces, m) == Entry(vm.spaces, m);
    }
    forall m: Loc | m.pid == c ensures !Mapped(Entry(vm'.spaces, m)) && !Owning(Entry(vm.spaces, m)) {
      if m.dir < KERNEL_DIRS {
        KernelEntry(vm', m);
      }
    }
    SameEntriesInv(vm, vm');
  }

  /** Fork keeps the invariant exactly when there is a free frame for each
      saturated frame of the pages it copies.  Then the child sees copies of the
      parent's pages and nobody else sees a change. */
  lemma ForkExact(vm: Vm, p: nat, c: nat, n: nat)
    requires Inv(vm) && p in vm.spaces && c !in vm.spaces && n <= ENTRIES
    ensures var vm' := Fork(vm, p, c, n);
      && (Inv(vm') <==> Room(vm, p, 0, Pos(n, 0)))
      && (Inv(vm') ==> SpaceCopied(vm, vm', p, c, n) && vm'.spaces.Keys == vm.spaces.Keys + {c})
  {
    hide Inv;
    hide Sound;
    hide CopyDirs;
    hide NoTablesFrom;
    hide Overcommitted;
    hide InitSpace;
    hide Room;
    hide ShadowOf;
    hide Entry;
    SpawnInv(vm, c);
    var vm1 := vm.(spaces := vm.spaces[c := InitSpace(vm.zeroPpn)]);
    CopyDirsExact(vm1, p, c, n, Pos(n, 0));
    var vm' := CopyDirs(vm1, p, c, n);
    NothingLeft(vm', p, Pos(n, 0));
    SameRoom(vm, vm1, p, 0, Pos(n, 0));
    forall m: Loc | m.pid != c ensures ShadowOf(vm1, m) == ShadowOf(vm, m) {
      ShadowKept(vm, m, c);
    }
  }

  lemma NothingLeft(vm: Vm, p: nat, k: nat)
    ensures Room(vm, p, k, k)
  {
    assert Saturated(vm, p, k, k) == {};
  }

  /** A new address space does not change what the others show. */
  lemma ShadowKept(vm: Vm, m: Loc, c: nat)
    requires m.pid != c
    ensures ShadowOf(vm.(spaces := vm.spaces[c := InitSpace(vm.zeroPpn)]), m) == ShadowOf(vm, m)
  {
    hide InitSpace;
    assert Entry(vm.spaces[c := InitSpace(vm.zeroPpn)], m) == Entry(vm.spaces, m);
  }
}

/** The owner counts of physical user frames and the "next available frame"
    cursor of kern/vm/frame.c.  The specification is a set of functions on the
    value `Frames`; `Allocator` is the in-place implementation proved against
    them. */
module FrameAllocator {
  import opened Collections

  /** Counts are 8-bit in the kernel: a frame has at most this many owners. */
  const MAX_OWNERS := 255

  datatype FrameStatus = Ok | KernelFrame | Ownerless | TooManyOwners

  /** `next == -1` means that every frame is owned. */
  datatype Frames = Frames(counts: seq<nat>, next: int)

  /** Frame identifiers; -1 stands for a frame of the kernel. */
  predicate IsFrameId(fr: Frames, id: int) {
    -1 <= id < |fr.counts|
  }

  /** The cursor is a free frame, or -1 exactly when there is none. */
  ghost predicate Valid(fr: Frames) {
    && |fr.counts| > 0
    && (forall f :: 0 <= f < |fr.counts| ==> fr.counts[f] <= MAX_OWNERS)
    && IsFrameId(fr, fr.next)
    && (fr.next != -1 ==> fr.counts[fr.next] == 0)
    && (fr.next == -1 ==> forall f :: 0 <= f < |fr.counts| ==> fr.counts[f] != 0)
  }

  /** The circular search: the first free frame among the `n` frames from
      `start` on, wrapping at the end of the table. */
  function NextFree(counts: seq<nat>, start: nat, n: nat): int
    requires start < |counts|
    decreases n
  {
    if n == 0 then -1
    else if counts[start] == 0 then start
    else NextFree(counts, (start + 1) % |counts|, n - 1)
  }

  /** The index `k` places after `start`, wrapping once. */
  function Ahead(start: nat, k: nat, size: nat): nat
    requires start < size && k <= size
  {
    if start + k < size then start + k else start + k - size
  }

  /** The search fails exactly when every frame it may visit is owned; otherwise
      it returns the free frame closest after `start`. */
  lemma {:induction false} NextFreeIsFirst(counts: seq<nat>, start: nat, n: nat) returns (k: nat)
    requires start < |counts| && n <= |counts|
    ensures k <= n
    ensures forall k' :: 0 <= k' < k ==> counts[Ahead(start, k', |counts|)] != 0
    ensures NextFree(counts, start, n) == if k == n then -1 else Ahead(start, k, |counts|)
    ensures k < n ==> counts[Ahead(start, k, |counts|)] == 0
    decreases n
  {
    if n == 0 || counts[start] == 0 {
      k := 0;
    } else {
      var start' := (start + 1) % |counts|;
      assert start' == Ahead(start, 1, |counts|);
      k := NextFreeIsFirst(counts, start', n - 1);
      forall k' | 0 <= k' < k + 1 ensures counts[Ahead(start, k', |counts|)] != 0 {
        if k' != 0 {
          assert Ahead(start, k', |counts|) == Ahead(start', k' - 1, |counts|);
        }
      }
      k := k + 1;
    }
  }

  /** A whole turn of the table misses no free frame. */
  lemma FullTurnFindsFree(counts: seq<nat>, start: nat)
    requires start < |counts|
    ensures var r := NextFree(counts, start, |counts|);
      if r == -1 then forall f :: 0 <= f < |counts| ==> counts[f] != 0
      else 0 <= r < |counts| && counts[r] == 0
  {
    var k := NextFreeIsFirst(counts, start, |counts|);
    if k == |counts| {
      forall f | 0 <= f < |counts| ensures counts[f] != 0 {
        var d := if f >= start then f - start else f - start + |counts|;
        assert Ahead(start, d, |counts|) == f;
      }
    }
  }

  // The functions below are total: an identifier outside the table, which no
  // page table entry ever holds, is treated like a kernel frame.

  /** _get_frame (kern/vm/frame.c:150-181): one more owner. */
  function GetFrame(fr: Frames, id: int): (r: (Frames, FrameStatus))
    ensures |r.0.counts| == |fr.counts|
  {
    if id < 0 || |fr.counts| <= id then (fr, KernelFrame)
    else if fr.counts[id] == MAX_OWNERS then (fr, TooManyOwners)
    else
      var counts := fr.counts[id := fr.counts[id] + 1];
      (Frames(counts, if id == fr.next then NextFree(counts, id, |counts|) else fr.next), Ok)
  }

  /** _allocate_frame (kern/vm/frame.c:81-93): the frame under the cursor. */
  function Allocate(fr: Frames): (r: (Frames, Option<nat>))
    ensures |r.0.counts| == |fr.counts|
    ensures r.1.Some? ==> r.1.value < |fr.counts|
  {
    if fr.next < 0 || |fr.counts| <= fr.next then (fr, None)
    else (GetFrame(fr, fr.next).0, Some(fr.next))
  }

  /** free_frame (kern/vm/frame.c:107-134): one owner less. */
  function FreeFrame(fr: Frames, id: int): (r: (Frames, FrameStatus))
    ensures |r.0.counts| == |fr.counts|
  {
    if id < 0 || |fr.counts| <= id then (fr, KernelFrame)
    else if fr.counts[id] == 0 then (fr, Ownerless)
    else
      var counts := fr.counts[id := fr.counts[id] - 1];
      (Frames(counts, if counts[id] == 0 && fr.next == -1 then id else fr.next), Ok)
  }

  lemma GetFrameValid(fr: Frames, id: int)
    requires Valid(fr)
    ensures Valid(GetFrame(fr, id).0)
  {
    if 0 <= id < |fr.counts| && fr.counts[id] != MAX_OWNERS {
      FullTurnFindsFree(fr.counts[id := fr.counts[id] + 1], id);
    }
  }

  /** allocate_frame hands out only ownerless frames, gives them exactly one
      owner, changes no other count, and fails exactly when none is free. */
  lemma AllocateExact(fr: Frames)
    requires Valid(fr)
    ensures var (fr', r) := Allocate(fr);
      && Valid(fr')
      && (r.None? <==> forall f :: 0 <= f < |fr.counts| ==> fr.counts[f] != 0)
      && (r.None? ==> fr' == fr)
      && (r.Some? ==> fr.counts[r.value] == 0 && fr'.counts == fr.counts[r.value := 1])
  {
    if fr.next != -1 {
      GetFrameValid(fr, fr.next);
      assert fr.counts[fr.next] == 0;
    }
  }

  lemma FreeFrameValid(fr: Frames, id: int)
    requires Valid(fr)
    ensures Valid(FreeFrame(fr, id).0)
  {
  }

  /** Giving a just allocated frame back restores every count (the cursor may
      have moved to another free frame). */
  lemma AllocateThenFree(fr: Frames)
    requires Valid(fr) && fr.next != -1
    ensures var fr1 := Allocate(fr).0;
      && FreeFrame(fr1, fr.next).1 == Ok
      && Valid(FreeFrame(fr1, fr.next).0)
      && FreeFrame(fr1, fr.next).0.counts == fr.counts
  {
    AllocateExact(fr);
    var fr1 := Allocate(fr).0;
    FreeFrameValid(fr1, fr.next);
    assert fr1.counts[fr.next := 0] == fr.counts;
  }

  /** The allocator as the kernel keeps it: a count table and a cursor, both
      updated in place. */
  class Allocator {
    const table: array<nat>
    var next: int

    ghost function View(): Frames
      reads this, table
    {
      Frames(table[..], next)
    }

    /** init_frame_allocator: every count 0, the cursor on frame 0. */
    constructor (size: nat)
      requires size > 0
      ensures View() == Frames(seq(size, _ => 0), 0)
      ensures Valid(View())
      ensures fresh(table)
    {
      table := new nat[size](_ => 0);
      next := 0;
      new;
      assert table[..] == seq(size, _ => 0);
    }

    method Get(id: int) returns (status: FrameStatus)
      requires IsFrameId(View(), id)
      modifies this`next, table
      ensures (View(), status) == GetFrame(old(View()), id)
    {
      if id == -1 {
        return KernelFrame;
      }
      if table[id] == MAX_OWNERS {
        return TooManyOwners;
      }
      table[id] := table[id] + 1;
      ghost var counts := table[..];
      assert counts == old(table[..])[id := old(table[id]) + 1];
      if id == next {
        var i, f := 0, next;
        var found := false;
        while i < table.Length && !found
          invariant 0 <= i <= table.Length
          invariant 0 <= f < table.Length
          invariant table[..] == counts
          invariant found ==> next == NextFree(counts, id, |counts|)
          invariant !found ==> next == id
          invariant !found ==> NextFree(counts, id, |counts|) == NextFree(counts, f, |counts| - i)
          decreases table.Length - i, !found
        {
          if table[f] == 0 {
            next := f;
            found := true;
          } else {
            i, f := i + 1, (f + 1) % table.Length;
          }
        }
        if !found {
          next := -1;
        }
      }
      return Ok;
    }

    method AllocateFrame() returns (r: Option<nat>)
      requires Valid(View())
      modifies this`next, table
      ensures (View(), r) == Allocate(old(View()))
    {
      if next == -1 {
        return None;
      }
      var frame := next;
      var status := Get(frame);
      assert status == Ok;
      return Some(frame);
    }

    /** copy_on_write takes one owner off the shared frame itself. */
    method Lower(id: nat)
      requires id < table.Length && table[id] > 0
      modifies table
      ensures View() == Frames(old(table[..])[id := old(table[id]) - 1], next)
    {
      table[id] := table[id] - 1;
      assert table[..] == old(table[..])[id := old(table[id]) - 1];
    }

    method Free(id: int) returns (status: FrameStatus)
      requires IsFrameId(View(), id)
      modifies this`next, table
      ensures (View(), status) == FreeFrame(old(View()), id)
    {
      if id == -1 {
        return KernelFrame;
      }
      if table[id] == 0 {
        return Ownerless;
      }
      table[id] := table[id] - 1;
      assert table[..] == old(table[..])[id := old(table[id]) - 1];
      if table[id] == 0 && next == -1 {
        next := id;
      }
      return Ok;
    }
  }
}
